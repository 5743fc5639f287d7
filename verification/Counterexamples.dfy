/** Where the program falls short of what its comments promise, on concrete runs. */
module Counterexamples {
  import opened Names
  import opened Reservation
  import opened Priorities
  import opened Navgraph
  import opened Patrol
  import opened Dispatch
  import opened Fleet
  import opened Invariants
  import opened Runs
  import opened Seats
  import opened Conservation
  import opened Histories
  import opened Deadlocks
  import Ring
  import opened Knots

  // ---------------------------------------------------------------- single steps of a run

  lemma PowerUp(cfg: Config) returns (n: System)
    requires cfg.Valid()
    ensures Reachable(cfg, n) && n == INITIAL
  {
    ReachableInitial(cfg);
    n := INITIAL;
  }

  lemma Watch(cfg: Config, s: System, r: Name, x: real) returns (n: System)
    requires cfg.Valid() && Reachable(cfg, s) && !s.sweeping
    ensures Reachable(cfg, n) && n == Observed(cfg, s, r, x, 0.0)
  {
    hide Reachable, Config.Valid;
    ReachableStep(cfg, s, Observe(r, x, 0.0));
    n := Apply(cfg, s, Observe(r, x, 0.0));
  }

  lemma BeginTick(cfg: Config, s: System) returns (n: System)
    requires cfg.Valid() && Reachable(cfg, s) && !s.sweeping
    ensures Reachable(cfg, n) && n == s.(sweeping := true, left := |s.queue|)
  {
    hide Reachable, Config.Valid;
    ReachableStep(cfg, s, Begin);
    n := Apply(cfg, s, Begin);
  }

  lemma EndTick(cfg: Config, s: System) returns (n: System)
    requires cfg.Valid() && Reachable(cfg, s) && s.sweeping && s.left == 0
    ensures Reachable(cfg, n) && n == s.(sweeping := false)
  {
    hide Reachable, Config.Valid;
    ReachableStep(cfg, s, End);
    n := Apply(cfg, s, End);
  }

  /** A turn in which the task asks, and the answer does not make it search for a detour. */
  lemma Asks(cfg: Config, s: System, u: Task) returns (n: System)
    requires cfg.Valid() && Reachable(cfg, s) && s.sweeping && 0 < s.left <= |s.queue| && Pollable(cfg, s, s.queue[0])
    requires HeadFate(cfg, s) == Goes(u) && Requests(cfg, s)
    requires !Searches(cfg, u, Answered(s, u), StoppedAhead(s, u))
    ensures Reachable(cfg, n) && n == Asking(cfg, s, u, [])
  {
    hide Reachable, Pollable, HeadFate, Searches, Answered, StoppedAhead, Asking;
    ReachableStep(cfg, s, Poll([]));
    n := Apply(cfg, s, Poll([]));
  }

  /** A turn in which the robot is on its way. */
  lemma Drives(cfg: Config, s: System, u: Task) returns (n: System)
    requires cfg.Valid() && Reachable(cfg, s) && s.sweeping && 0 < s.left <= |s.queue| && Pollable(cfg, s, s.queue[0])
    requires HeadFate(cfg, s) == Goes(u) && u.moving
    ensures Reachable(cfg, n) && n == s.(queue := s.queue[1..] + [u], left := s.left - 1)
  {
    hide Reachable, Pollable, HeadFate;
    ReachableStep(cfg, s, Poll([]));
    n := Apply(cfg, s, Poll([]));
  }

  /** An accepted submission. */
  lemma Sends(cfg: Config, s: System, goal: int, r: Name, plan: seq<int>) returns (n: System)
    requires cfg.Valid() && Reachable(cfg, s) && !s.sweeping && SubmitFits(cfg, s, goal, 0, r, "", plan)
    requires Judged(cfg, s, goal, 0, r, "", plan) == Accepted && r in s.robots
    requires |TaskPath(StartOf(cfg, s, r), goal, plan)| > 0
    ensures var t := NewTask(r, TaskPath(StartOf(cfg, s, r), goal, plan), false, s.created + 1);
            Reachable(cfg, n) && n == Launched(if s.robots[r].busy then Cancelled(s, r) else s, t)
  {
    hide Reachable, SubmitFits, Judged, Launched, Cancelled, StartOf, Enabled, Apply, TaskPath;
    Submitting(cfg, s, Submit(goal, 0, r, "", plan));
    ReachableStep(cfg, s, Submit(goal, 0, r, "", plan));
    n := Apply(cfg, s, Submit(goal, 0, r, "", plan));
  }

  lemma StartsPatrol(cfg: Config, s: System, r: Name) returns (n: System)
    requires cfg.Valid() && Reachable(cfg, s) && !s.sweeping && |cfg.route| >= 2 && r in s.robots
    requires !s.robots[r].busy && ModeOf(s.modes, r) == Patrolling && s.queue == []
    ensures Reachable(cfg, n)
    ensures var lap := Lap(cfg.graph, cfg.route, s.robots[r].x, s.robots[r].y, -1);
            n == Launched(s, NewTask(r, lap, true, s.created + 1))
  {
    hide Reachable, Lap, Launched;
    ReachableStep(cfg, s, StartPatrol(r));
    n := Apply(cfg, s, StartPatrol(r));
  }

  lemma SetsMode(cfg: Config, s: System, r: Name, m: Mode) returns (n: System)
    requires cfg.Valid() && Reachable(cfg, s) && !s.sweeping
    ensures Reachable(cfg, n) && n == ModeSet(cfg, s, r, m) && Enabled(cfg, s, SetMode(r, m))
    ensures n == Apply(cfg, s, SetMode(r, m))
  {
    hide Reachable, Config.Valid, ModeSet;
    ReachableStep(cfg, s, SetMode(r, m));
    n := Apply(cfg, s, SetMode(r, m));
  }

  lemma SetsBattery(cfg: Config, s: System, r: Name, v: real) returns (n: System)
    requires cfg.Valid() && Reachable(cfg, s) && !s.sweeping
    ensures Reachable(cfg, n) && n == Charged(s, r, v)
  {
    hide Reachable, Config.Valid;
    ReachableStep(cfg, s, SetBattery(r, v));
    n := Apply(cfg, s, SetBattery(r, v));
  }

  /** What a claim of a node does to the tables. */
  lemma ClaimFacts(l: Ledger, r: Name, node: int, p: int)
    ensures var m := Requested(l, r, node, node, p);
            && m.owner == (if Free(l, r, node) then l.owner[node := r] else l.owner)
            && m.waitFor == (if Free(l, r, node) then l.waitFor - {r} else l.waitFor)
  {}

  /** What a departure does: the node ahead is free, so it is taken and the node behind given back. */
  lemma DepartFacts(s: System, u: Task)
    requires 0 < u.idx < |u.path| && Free(s.ledger, u.robot, u.Target())
    ensures Answered(s, u) == Grant && AskedLedger(s, u).waitFor == s.ledger.waitFor - {u.robot}
    ensures var taken := s.ledger.owner[u.Target() := u.robot];
            AskedLedger(s, u).owner ==
            if u.Here() != u.Target() && Owns(s.ledger, u.robot, u.Here()) then taken - {u.Here()} else taken
  {
    hide PriorityOf;
  }

  // ---------------------------------------------------------------- places

  /** All points lie on one line, where the Euclidean norm is the absolute value. */
  function OnLine(a: real, b: real): real {
    (if a < 0.0 then -a else a) + (if b < 0.0 then -b else b)
  }

  /** Two vertices one metre apart, joined in both directions; no patrol. */
  function Corridor(): Config {
    Config(Graph([Vertex(0.0, 0.0), Vertex(1.0, 0.0)], [[1], [0]], OnLine), [], Energy(1.0, 0.5, 15.0), false)
  }

  lemma CorridorValid()
    ensures Corridor().Valid()
  {}

  lemma {:induction false} CostNonNegative(g: Graph, p: seq<int>)
    requires g.Valid() && g.InRange(p)
    ensures g.Cost(p) >= 0.0
    decreases |p|
  {
    if |p| >= 2 {
      CostNonNegative(g, p[..|p| - 1]);
    }
  }

  lemma CorridorPlan(u: int)
    requires u == 0 || u == 1
    ensures Corridor().Valid() && Corridor().graph.Shortest(u, 1 - u, -1, [u, 1 - u])
  {
    CorridorValid();
    var g, p := Corridor().graph, [u, 1 - u];
    assert g.Lane(u, 1 - u) && g.Route(u, 1 - u, -1, p);
    assert p[..1] == [u] && g.Cost(p) == 1.0;
    forall q | g.Route(u, 1 - u, -1, q) ensures g.Cost(q) >= 1.0 {
      CostNonNegative(g, q[..|q| - 1]);
      assert g.Lane(q[|q| - 2], q[|q| - 1]);
    }
  }

  const A: Name := "a"
  const B: Name := "b"

  function At(name: Name, x: real, busy: bool): RobotInfo {
    RobotInfo(name, x, 0.0, 100.0, busy)
  }

  /** `a` stands at vertex 0 and `b` at vertex 1; nobody owns anything. */
  predicate AtRest(s: System) {
    && s.robots == map[A := At(A, 0.0, false), B := At(B, 1.0, false)] && s.modes == map[A := Idling, B := Idling]
    && s.queue == [] && !s.sweeping && s.left == 0 && s.created == 0
    && s.ledger.owner == map[] && s.ledger.waitFor == map[]
  }

  /** `b` has been sent to vertex 0. */
  predicate Sent(s: System) {
    && s.robots == map[A := At(A, 0.0, false), B := At(B, 1.0, true)] && s.modes == map[A := Idling, B := Idling]
    && s.queue == [NewTask(B, [1, 0], false, 1)] && !s.sweeping && s.left == 0 && s.created == 1
    && s.ledger.owner == map[1 := B]
  }

  function Underway(noMove: nat): Task {
    NewTask(B, [1, 0], false, 1).(moving := true, lastX := 1.0, noMove := noMove)
  }

  /** `b` has departed: it owns vertex 0, where `a` stands. */
  predicate Departed(s: System) {
    && s.robots == map[A := At(A, 0.0, false), B := At(B, 1.0, true)] && s.modes == map[A := Idling, B := Idling]
    && s.queue == [Underway(0)] && !s.sweeping && s.left == 0 && s.created == 1 && s.ledger.owner == map[0 := B]
  }

  /** `a` has been sent to vertex 1; its claim of vertex 0 was refused, and nobody noticed. */
  predicate Crossing(s: System) {
    && s.robots == map[A := At(A, 0.0, true), B := At(B, 1.0, true)] && s.modes == map[A := Idling, B := Idling]
    && s.queue == [Underway(0), NewTask(A, [0, 1], false, 2)] && !s.sweeping && s.left == 0
    && s.ledger.owner == map[0 := B]
  }

  // ---------------------------------------------------------------- crossing the corridor

  lemma NearestInCorridor()
    ensures Corridor().graph.NearestVertex(0.0, 0.0) == 0 && Corridor().graph.NearestVertex(1.0, 0.0) == 1
  {
    var g := Corridor().graph;
    assert g.NearestBelow(0, 0.0, 0.0) == -1 && g.NearestBelow(1, 0.0, 0.0) == 0;
    assert g.NearestBelow(0, 1.0, 0.0) == -1 && g.NearestBelow(1, 1.0, 0.0) == 0;
  }

  /** The robot stands at vertex `u` of the corridor, is not stopped, and has the battery to cross. */
  predicate Ready(s: System, r: Name, u: int) {
    && r in s.robots && (u == 0 || u == 1) && s.robots[r].x == u as real && s.robots[r].y == 0.0
    && s.robots[r].battery >= 16.0 && ModeOf(s.modes, r) != Stopped
  }

  lemma CorridorFits(s: System, r: Name, u: int)
    requires Corridor().Valid() && Ready(s, r, u)
    ensures SubmitFits(Corridor(), s, 1 - u, 0, r, "", [u, 1 - u])
  {
    CorridorPlan(u);
    NearestInCorridor();
    hide Graph.Shortest;
  }

  lemma CorridorAccepts(s: System, r: Name, u: int)
    requires Corridor().Valid() && Ready(s, r, u)
    ensures Corridor().graph.InRange([u, 1 - u]) && StartOf(Corridor(), s, r) == u
    ensures Judged(Corridor(), s, 1 - u, 0, r, "", [u, 1 - u]) == Accepted
  {
    NearestInCorridor();
    assert [u, 1 - u][..1] == [u];
    assert Corridor().graph.Cost([u, 1 - u]) == 1.0;
    hide Graph.Valid, Graph.Cost, Graph.NearestVertex;
    assert Need(Energy(1.0, 0.5, 15.0), 1.0, 0) == 16.0;
  }

  /** A robot is sent from one end of the corridor to the other. */
  lemma Crosses(s: System, r: Name, u: int) returns (n: System)
    requires Corridor().Valid() && Reachable(Corridor(), s) && !s.sweeping && Ready(s, r, u)
    ensures Reachable(Corridor(), n)
    ensures n == Launched(if s.robots[r].busy then Cancelled(s, r) else s, NewTask(r, [u, 1 - u], false, s.created + 1))
  {
    CorridorFits(s, r, u);
    CorridorAccepts(s, r, u);
    hide Reachable, SubmitFits, Judged, Corridor, Launched, Cancelled, Config.Valid;
    n := Sends(Corridor(), s, 1 - u, r, [u, 1 - u]);
  }

  // ---------------------------------------------------------------- a head-on meeting

  lemma Settles() returns (s: System)
    ensures Corridor().Valid() && Reachable(Corridor(), s) && AtRest(s)
  {
    CorridorValid();
    hide Reachable, Config.Valid;
    s := PowerUp(Corridor());
    s := Watch(Corridor(), s, A, 0.0);
    s := Watch(Corridor(), s, B, 1.0);
  }

  lemma SendsB(s: System) returns (n: System)
    requires Corridor().Valid() && Reachable(Corridor(), s) && AtRest(s)
    ensures Reachable(Corridor(), n) && Sent(n)
  {
    hide Reachable, Config.Valid, Corridor, Requested, PriorityOf;
    n := Crosses(s, B, 1);
    ClaimFacts(s.ledger, B, 1, PriorityOf(s, NewTask(B, [1, 0], false, 1)));
  }

  lemma DepartsB(s: System) returns (n: System)
    requires Corridor().Valid() && Reachable(Corridor(), s) && Sent(s)
    ensures Reachable(Corridor(), n) && Departed(n)
  {
    hide Reachable, Config.Valid, PriorityOf, Answered, AskedLedger;
    n := BeginTick(Corridor(), s);
    var u := NewTask(B, [1, 0], false, 1).(lastX := 1.0);
    assert HeadFate(Corridor(), n) == Goes(u);
    DepartFacts(n, u);
    n := Asks(Corridor(), n, u);
    n := EndTick(Corridor(), n);
  }

  lemma SendsA(s: System) returns (n: System)
    requires Corridor().Valid() && Reachable(Corridor(), s) && Departed(s)
    ensures Reachable(Corridor(), n) && Crossing(n)
  {
    hide Reachable, Config.Valid, Corridor, Requested, PriorityOf;
    n := Crosses(s, A, 0);
    ClaimFacts(s.ledger, A, 0, PriorityOf(s, NewTask(A, [0, 1], false, 2)));
  }

  /** Between the polls of `b`, still on its way, and of `a`. */
  predicate Meeting(s: System) {
    && s.robots == map[A := At(A, 0.0, true), B := At(B, 1.0, true)] && s.modes == map[A := Idling, B := Idling]
    && s.queue == [NewTask(A, [0, 1], false, 2), Underway(1)] && s.sweeping && s.left == 1
    && s.ledger.owner == map[0 := B]
  }

  lemma DrivesB(s: System) returns (n: System)
    requires Corridor().Valid() && Reachable(Corridor(), s) && Crossing(s)
    ensures Reachable(Corridor(), n) && Meeting(n)
  {
    hide Reachable, Config.Valid;
    n := BeginTick(Corridor(), s);
    assert HeadFate(Corridor(), n) == Goes(Underway(1));
    n := Drives(Corridor(), n, Underway(1));
  }

  /**
   Reservations alone do not rule out head-on meetings: a task may begin on a node that its robot does not
   hold, because the answer to the claim is ignored, and then be granted the lane on which the node's owner
   is coming.
   */
  lemma HeadOnIsPossible() returns (cfg: Config, s: System)
    ensures cfg.Valid() && Reachable(cfg, s)
    ensures 1 < |s.queue| && 0 < s.left && Pollable(cfg, s, s.queue[0]) && Requests(cfg, s)
    ensures Answered(s, HeadFate(cfg, s).task) == Grant && HeadOn(HeadFate(cfg, s).task, s.queue[1])
  {
    cfg := Corridor();
    hide Reachable;
    s := Settles();
    s := SendsB(s);
    s := DepartsB(s);
    s := SendsA(s);
    s := DrivesB(s);
    assert HeadFate(cfg, s) == Goes(NewTask(A, [0, 1], false, 2));
  }

  /** Charging a stopped robot strands its node: three callbacks reach a state with an unaccounted reservation. */
  lemma ChargingStrandsNodes() returns (cfg: Config, s: System, e: Event)
    ensures cfg.Valid() && Reachable(cfg, s) && Enabled(cfg, s, e)
    ensures Conserved(s) && Leaks(cfg, s, e) && !Conserved(Apply(cfg, s, e))
  {
    cfg, e := Corridor(), SetMode(A, Charging);
    var s0 := Settles();
    ReachableInv(cfg, s0);
    hide Reachable;
    s := SetsMode(cfg, s0, A, Stopped);
    StepConserves(cfg, s0, SetMode(A, Stopped));
    StopA(s0);
    hide ModeSet, Corridor, Config.Valid, Inv;
    ReachableInv(cfg, s);
    var n := SetsMode(cfg, s, A, Charging);
    StepConserves(cfg, s, e);
  }

  lemma StopA(s: System)
    requires Corridor().Valid() && AtRest(s)
    ensures var n := ModeSet(Corridor(), s, A, Stopped);
            Owns(n.ledger, A, 0) && ModeOf(n.modes, A) == Stopped && !n.sweeping
  {
    NearestInCorridor();
  }

  /** Three vertices in a row, closer together than the arrival radius, patrolled round and round. */
  function Crowded(): Config {
    Config(Graph([Vertex(0.0, 0.0), Vertex(0.3, 0.0), Vertex(0.6, 0.0)], [[1, 2], [0, 2], [0, 1]], OnLine), [0, 1, 2],
           Energy(1.0, 0.5, 15.0), true)
  }

  lemma CrowdedValid()
    ensures Crowded().Valid()
  {
    var g := Crowded().graph;
    assert g.Lane(0, 1) && g.Lane(1, 2) && g.Lane(2, 0);
  }

  lemma CrowdedLaps()
    ensures Crowded().graph.InRange(Crowded().route)
    ensures Lap(Crowded().graph, Crowded().route, 0.3, 0.0, -1) == [1, 2, 0, 1]
    ensures Lap(Crowded().graph, Crowded().route, 0.55, 0.0, -1) == [2, 0, 1, 2]
  {
    var g, route := Crowded().graph, Crowded().route;
    assert EntryBelow(g, route, 1, 0.3, 0.0) == 0 && EntryBelow(g, route, 2, 0.3, 0.0) == 1;
    assert EntryBelow(g, route, 1, 0.55, 0.0) == 0 && EntryBelow(g, route, 2, 0.55, 0.0) == 1;
    assert Entry(g, route, 0.3, 0.0, -1) == 1 && Entry(g, route, 0.55, 0.0, -1) == 2;
    CrowdedTurned();
  }

  lemma CrowdedTurned()
    ensures Turned([0, 1, 2], 1) == [1, 2, 0, 1] && Turned([0, 1, 2], 2) == [2, 0, 1, 2]
  {
    var one, two := Turned([0, 1, 2], 1), Turned([0, 1, 2], 2);
    assert Wrap(1, 3) == 1 && Wrap(2, 3) == 2 && Wrap(3, 3) == 0 && Wrap(4, 3) == 1 && Wrap(5, 3) == 2;
    assert one[0] == 1 && one[1] == 2 && one[2] == 0 && one[3] == 1;
    assert two[0] == 2 && two[1] == 0 && two[2] == 1 && two[3] == 2;
  }

  /** Between ticks, with `a` at `x` on its task `t` as the only robot and `at` as the only owned node. */
  predicate Riding(s: System, x: real, t: Task, at: int) {
    && s.robots == map[A := At(A, x, true)] && s.modes == map[A := Patrolling]
    && s.queue == [t] && !s.sweeping && s.left == 0 && s.ledger.owner == map[at := A]
  }

  function OnLap(idx: nat, moving: bool, noMove: nat): Task {
    NewTask(A, [1, 2, 0, 1], true, 1).(idx := idx, moving := moving, lastX := 0.3, noMove := noMove)
  }

  lemma SetOut() returns (s: System)
    ensures Crowded().Valid() && Reachable(Crowded(), s)
    ensures Riding(s, 0.3, NewTask(A, [1, 2, 0, 1], true, 1), 1)
  {
    CrowdedValid();
    CrowdedLaps();
    hide Reachable, Config.Valid, Lap, Requested, PriorityOf;
    s := PowerUp(Crowded());
    s := Watch(Crowded(), s, A, 0.3);
    assert s.robots == map[A := At(A, 0.3, false)] && s.modes == map[A := Patrolling];
    var s1 := s;
    s := StartsPatrol(Crowded(), s, A);
    ClaimFacts(s1.ledger, A, 1, PriorityOf(s1, NewTask(A, [1, 2, 0, 1], true, 1)));
  }

  /** A tick in which the robot arrives, or has just set out, and departs for the next node. */
  lemma Ride(s: System, t: Task, at: int, u: Task) returns (n: System)
    requires Crowded().Valid() && Reachable(Crowded(), s) && Riding(s, 0.3, t, at) && Pollable(Crowded(), s, t)
    requires Progress(Crowded(), At(A, 0.3, true), t) == Goes(u) && !u.moving && u.robot == A
    requires 0 < u.idx < |u.path| && u.Here() == at != u.Target()
    ensures Reachable(Crowded(), n)
    ensures Riding(n, 0.3, u.(moving := true, stuck := false, waitTicks := 0), u.Target())
  {
    hide Reachable, Config.Valid, Progress, Crowded, PriorityOf, Answered, AskedLedger, Graph.Valid, ClosedWalk;
    n := BeginTick(Crowded(), s);
    DepartFacts(n, u);
    assert AskedLedger(n, u).owner == map[u.Target() := A];
    n := Asks(Crowded(), n, u);
    n := EndTick(Crowded(), n);
  }

  /** Where patrol vertices are too close, a lap can restart where the node just reached is lost. */
  lemma LapsStrandNodes() returns (cfg: Config, s: System, e: Event)
    ensures cfg.Valid() && Reachable(cfg, s) && Enabled(cfg, s, e)
    ensures Conserved(s) && Leaks(cfg, s, e) && !Conserved(Apply(cfg, s, e))
  {
    cfg := Crowded();
    s := RideAround();
    hide Reachable, Crowded, Riding;
    s := Overshoot(s);
    e := Poll([]);
    LapStrays(s);
    ReachableInv(cfg, s);
    hide Inv, Config.Valid, Conserved, Enabled, Apply;
    StepConserves(cfg, s, e);
  }

  lemma RideAround() returns (s: System)
    ensures Crowded().Valid() && Reachable(Crowded(), s) && Riding(s, 0.3, OnLap(3, true, 2), 1)
  {
    s := SetOut();
    hide Reachable, Config.Valid;
    s := Ride(s, NewTask(A, [1, 2, 0, 1], true, 1), 1, OnLap(1, false, 0));
    s := Ride(s, OnLap(1, true, 0), 2, OnLap(2, false, 1));
    s := Ride(s, OnLap(2, true, 1), 0, OnLap(3, false, 2));
  }

  /** In the middle of the lane to vertex 1 the robot gets closer to vertex 2, and a tick begins. */
  lemma Overshoot(s: System) returns (n: System)
    requires Crowded().Valid() && Reachable(Crowded(), s) && Riding(s, 0.3, OnLap(3, true, 2), 1)
    ensures Reachable(Crowded(), n) && n.sweeping && n.left == 1
    ensures Riding(n.(sweeping := false, left := 0), 0.55, OnLap(3, true, 2), 1)
  {
    hide Reachable, Config.Valid, Crowded;
    n := Watch(Crowded(), s, A, 0.55);
    n := BeginTick(Crowded(), n);
  }

  lemma LapStrays(s: System)
    requires Crowded().Valid() && s.sweeping && s.left == 1
    requires Riding(s.(sweeping := false, left := 0), 0.55, OnLap(3, true, 2), 1)
    ensures Enabled(Crowded(), s, Poll([])) && Conserved(s) && LapLeaks(Crowded(), s)
  {
    CrowdedLaps();
    hide Lap, Graph.Valid, ClosedWalk;
  }

  // ---------------------------------------------------------------- waiting for one's own goal

  /** `b` has been sent to vertex 1, where it is, but drives off: it keeps vertex 1, which it never reaches. */
  function Stray(x: real, noMove: nat): Task {
    NewTask(B, [1, 1], false, 1).(moving := true, lastX := x, noMove := noMove)
  }

  /** `a` has been told to wait for vertex 1, its goal, `n` times. */
  function Patient(n: nat): Task {
    NewTask(A, [0, 1], false, 2).(waitTicks := n)
  }

  predicate Posted(s: System, bx: real, busy: bool) {
    && s.robots == map[A := At(A, 0.0, busy), B := At(B, bx, true)] && s.modes == map[A := Idling, B := Idling]
    && s.created == (if busy then 2 else 1) && B !in s.ledger.waitFor
  }

  predicate Ordered(s: System) {
    && Posted(s, 1.0, false) && s.queue == [NewTask(B, [1, 1], false, 1)] && !s.sweeping && s.left == 0
    && s.ledger.owner == map[1 := B]
  }

  predicate OffRoad(s: System) {
    Posted(s, 5.0, false) && s.queue == [Stray(1.0, 0)] && !s.sweeping && s.left == 0 && s.ledger.owner == map[1 := B]
  }

  predicate Pending(s: System, x: real, noMove: nat, n: nat) {
    && Posted(s, 5.0, true) && s.queue == [Stray(x, noMove), Patient(n)] && !s.sweeping && s.left == 0
    && s.ledger.owner == map[0 := A, 1 := B]
  }

  predicate InTurn(s: System, noMove: nat, n: nat) {
    && Posted(s, 5.0, true) && s.queue == [Patient(n), Stray(5.0, noMove)] && s.sweeping && s.left == 1
    && s.ledger.owner == map[0 := A, 1 := B]
  }

  lemma StaysFits(s: System)
    requires Corridor().Valid() && AtRest(s)
    ensures SubmitFits(Corridor(), s, 1, 0, B, "", [1])
  {
    NearestInCorridor();
    var g := Corridor().graph;
    assert g.Route(1, 1, -1, [1]) && g.Cost([1]) == 0.0;
    forall q | g.Route(1, 1, -1, q) ensures g.Cost(q) >= 0.0 {
      CostNonNegative(g, q);
    }
    assert g.Shortest(1, 1, -1, [1]);
    hide Graph.Shortest, Graph.Cost;
  }

  lemma StaysAccepted(s: System)
    requires Corridor().Valid() && AtRest(s)
    ensures Corridor().graph.InRange([1]) && StartOf(Corridor(), s, B) == 1
    ensures Judged(Corridor(), s, 1, 0, B, "", [1]) == Accepted
  {
    NearestInCorridor();
    assert [1, 1][..1] == [1] && Corridor().graph.Cost([1, 1]) == 0.0;
    hide Graph.Valid, Graph.Cost, Graph.NearestVertex;
    assert Need(Energy(1.0, 0.5, 15.0), 0.0, 0) == 15.0;
  }

  lemma OrdersB(s: System) returns (n: System)
    requires Corridor().Valid() && Reachable(Corridor(), s) && AtRest(s)
    ensures Reachable(Corridor(), n) && Ordered(n)
  {
    hide Reachable, Config.Valid, SubmitFits, Judged, Corridor, Launched, Ordered, StartOf, NewTask, Graph.Valid;
    StaysFits(s);
    StaysAccepted(s);
    OrderedAtRest(s);
    n := Sends(Corridor(), s, 1, B, [1]);
  }

  lemma OrderedAtRest(s: System)
    requires AtRest(s)
    ensures Ordered(Launched(s, NewTask(B, [1, 1], false, 1)))
  {
    ClaimFacts(s.ledger, B, 1, PriorityOf(s, NewTask(B, [1, 1], false, 1)));
    hide PriorityOf, Requested;
  }

  /** `b` is told to drive to where it is, and drives elsewhere. */
  lemma DrivesOff(s: System) returns (n: System)
    requires Corridor().Valid() && Reachable(Corridor(), s) && Ordered(s)
    ensures Reachable(Corridor(), n) && OffRoad(n)
  {
    hide Reachable, Config.Valid, PriorityOf, Answered, AskedLedger;
    n := BeginTick(Corridor(), s);
    var u := NewTask(B, [1, 1], false, 1).(lastX := 1.0);
    assert HeadFate(Corridor(), n) == Goes(u);
    DepartFacts(n, u);
    n := Asks(Corridor(), n, u);
    n := EndTick(Corridor(), n);
    n := Watch(Corridor(), n, B, 5.0);
  }

  lemma OrdersA(s: System) returns (n: System)
    requires Corridor().Valid() && Reachable(Corridor(), s) && OffRoad(s)
    ensures Reachable(Corridor(), n) && Pending(n, 1.0, 0, 0)
  {
    hide Reachable, Config.Valid, Corridor, Launched, Pending, Cancelled;
    PendingOffRoad(s);
    n := Crosses(s, A, 0);
  }

  lemma PendingOffRoad(s: System)
    requires OffRoad(s)
    ensures Pending(Launched(s, Patient(0)), 1.0, 0, 0)
  {
    ClaimFacts(s.ledger, A, 0, PriorityOf(s, Patient(0)));
    hide Requested, PriorityOf;
  }

  /** The first half of a tick: `b` drives on. */
  lemma PassB(s: System, x: real, noMove: nat, n: nat) returns (t: System, now: nat)
    requires Corridor().Valid() && Reachable(Corridor(), s) && Pending(s, x, noMove, n) && noMove < STUCK_TICKS
    ensures Reachable(Corridor(), t) && now <= noMove + 1 && InTurn(t, now, n)
  {
    hide Reachable, Config.Valid;
    now := if Unmoved(Corridor(), s.robots[B], Stray(x, noMove)) then noMove + 1 else 0;
    t := BeginTick(Corridor(), s);
    assert HeadFate(Corridor(), t) == Goes(Stray(5.0, now));
    t := Drives(Corridor(), t, Stray(5.0, now));
  }

  /** What `a` is told in its turn. */
  lemma AskA(s: System, noMove: nat, n: nat)
    requires Corridor().Valid() && InTurn(s, noMove, n)
    ensures Pollable(Corridor(), s, s.queue[0]) && Requests(Corridor(), s)
    ensures HeadFate(Corridor(), s) == Goes(Patient(n))
    ensures Answered(s, Patient(n)) == Wait && !StoppedAhead(s, Patient(n))
    ensures AskedLedger(s, Patient(n)).owner == s.ledger.owner && B !in AskedLedger(s, Patient(n)).waitFor
  {
    var w := s.ledger.waitFor[A := B];
    assert !OnCycle(w, A) by {
      WaitsForNobody(w, A, B);
    }
    hide PriorityOf, Graph.Valid, ClosedWalk;
  }

  lemma WaitsForNobody(w: map<Name, Name>, a: Name, b: Name)
    requires a in w && w[a] == b && b !in w && a != b
    ensures !OnCycle(w, a)
  {
    forall k: nat | k > 0 ensures Follow(w, a, k) != Some(a) {
      assert Follow(w, a, 0) == Some(a) && Follow(w, a, 1) == Some(b) && Follow(w, a, 2) == None;
      if k >= 2 {
        FollowEnds(w, a, 2, k);
      }
    }
  }

  /** The other half: `a` is told to wait once more. */
  lemma WaitOn(s: System, noMove: nat, n: nat) returns (t: System)
    requires Corridor().Valid() && Reachable(Corridor(), s) && InTurn(s, noMove, n) && n + 1 < REROUTE_WAIT_TICKS
    ensures Reachable(Corridor(), t) && Pending(t, 5.0, noMove, n + 1)
  {
    hide Reachable, Config.Valid, Corridor, Answered, AskedLedger, HeadFate, StoppedAhead, Requests, Pollable;
    AskA(s, noMove, n);
    t := Asks(Corridor(), s, Patient(n));
    t := EndTick(Corridor(), t);
  }

  lemma {:induction false} WaitLong(n: nat) returns (s: System, x: real, noMove: nat)
    requires n < REROUTE_WAIT_TICKS
    ensures Corridor().Valid() && Reachable(Corridor(), s) && noMove <= n && Pending(s, x, noMove, n)
  {
    CorridorValid();
    hide Reachable, Config.Valid, Corridor, Pending;
    if n == 0 {
      s := Settles();
      s := OrdersB(s);
      s := DrivesOff(s);
      s := OrdersA(s);
      x, noMove := 1.0, 0;
    } else {
      s, x, noMove := WaitLong(n - 1);
      s, noMove := PassB(s, x, noMove, n - 1);
      s := WaitOn(s, noMove, n - 1);
      x := 5.0;
    }
  }

  /**
   The timed detour that is promised after a long wait behind a robot that is not stopped: `a` has waited its
   full time, the planner is asked, but the blocked node is the goal, so no answer can reroute it.
   */
  lemma WaitsForItsGoal() returns (cfg: Config, s: System)
    ensures cfg.Valid() && Reachable(cfg, s) && s.sweeping && 0 < s.left <= |s.queue|
    ensures Pollable(cfg, s, s.queue[0]) && Requests(cfg, s)
    ensures var t := HeadFate(cfg, s).task;
            && Answered(s, t) == Wait && !StoppedAhead(s, t) && t.waitTicks + 1 == REROUTE_WAIT_TICKS
            && Searches(cfg, t, Wait, false) && DetourGoal(cfg, t, false) == t.Target()
    ensures forall plan | Enabled(cfg, s, Poll(plan)) :: HeadAfter(cfg, s, plan).path == HeadFate(cfg, s).task.path
  {
    cfg := Corridor();
    var x, noMove;
    s, x, noMove := WaitLong(REROUTE_WAIT_TICKS - 1);
    hide Reachable, Corridor;
    s, noMove := PassB(s, x, noMove, REROUTE_WAIT_TICKS - 1);
    AskA(s, noMove, REROUTE_WAIT_TICKS - 1);
    ReachableInv(cfg, s);
    hide Inv, InTurn, Enabled, Pollable, HeadAfter, Answered, StoppedAhead;
    forall plan | Enabled(cfg, s, Poll(plan)) ensures HeadAfter(cfg, s, plan).path == HeadFate(cfg, s).task.path {
      BlockedGoalsAreAwaited(cfg, s, plan);
    }
  }

  // ---------------------------------------------------------------- past the last age

  /** `a` at vertex 0 and `b` at vertex 1 of the corridor, with these batteries. */
  predicate Placed(s: System, batteryB: real, busyA: bool, busyB: bool) {
    && s.robots == map[A := RobotInfo(A, 0.0, 0.0, 50.0, busyA), B := RobotInfo(B, 1.0, 0.0, batteryB, busyB)]
    && s.modes == map[A := Idling, B := Idling]
  }

  function ToB(k: nat): Task { NewTask(A, [0, 1], false, k) }

  function ToA(k: nat): Task { NewTask(B, [1, 0], false, k) }

  /** `a` has been sent to vertex 1 for the k-th time; for k = 0 it has not been sent at all. */
  predicate Resent(s: System, k: nat) {
    && Placed(s, 20.0, k > 0, false) && s.queue == (if k > 0 then [ToB(k)] else [])
    && s.created == k && !s.sweeping && s.left == 0
    && s.ledger.owner == (if k > 0 then map[0 := A] else map[]) && s.ledger.waitFor == map[]
  }

  lemma Equipped() returns (s: System)
    ensures Corridor().Valid() && Reachable(Corridor(), s) && Resent(s, 0)
  {
    s := Settles();
    hide Reachable, Config.Valid, Corridor;
    s := SetsBattery(Corridor(), s, A, 50.0);
    s := SetsBattery(Corridor(), s, B, 20.0);
  }

  /** Sending it again cancels the earlier task and its reservation. */
  lemma Recalled(s: System, k: nat)
    requires Resent(s, k)
    ensures var c := if k > 0 then Cancelled(s, A) else s;
            && c.queue == [] && c.ledger.owner == map[] && c.ledger.waitFor == map[] && c.created == k
            && Placed(c, 20.0, false, false) && !c.sweeping && c.left == 0
  {
    if k > 0 {
      assert s.queue[1..] == [];
      assert Without(s.queue, A) == Without([], A) == [];
      var l1 := Released(s.ledger, A, 0);
      assert ReleasedTasks(s.ledger, s.queue, A) == ReleasedTasks(Released(l1, A, 1), [], A);
    }
  }

  lemma Resend(s: System, k: nat) returns (n: System)
    requires Corridor().Valid() && Reachable(Corridor(), s) && Resent(s, k)
    ensures Reachable(Corridor(), n) && Resent(n, k + 1)
  {
    hide Reachable, Config.Valid, Corridor, Cancelled, Launched;
    Recalled(s, k);
    n := Crosses(s, A, 0);
    var c := if k > 0 then Cancelled(s, A) else s;
    hide Placed, Resent;
    LaunchedAgain(c, k);
  }

  lemma LaunchedAgain(c: System, k: nat)
    requires c.queue == [] && c.ledger.owner == map[] && c.ledger.waitFor == map[] && c.created == k
    requires Placed(c, 20.0, false, false) && !c.sweeping && c.left == 0
    ensures Resent(Launched(c, ToB(k + 1)), k + 1)
  {
    ClaimFacts(c.ledger, A, 0, PriorityOf(c, ToB(k + 1)));
    hide PriorityOf, Requested;
  }

  lemma {:induction false} ResendOften(k: nat) returns (s: System)
    ensures Corridor().Valid() && Reachable(Corridor(), s) && Resent(s, k)
    decreases k
  {
    hide Reachable, Config.Valid, Resent;
    if k == 0 {
      s := Equipped();
    } else {
      s := ResendOften(k - 1);
      s := Resend(s, k - 1);
    }
  }

  // ---------------------------------------------------------------- both robots want the other's vertex

  /** Both own where they stand and have tasks that are too young to differ in age. */
  predicate Facing(s: System, batteryB: real) {
    && Placed(s, batteryB, true, true) && s.created == SEQ_MAX + 1 && s.ledger.owner == map[0 := A, 1 := B]
  }

  predicate Opposed(s: System) {
    && Facing(s, 20.0) && s.queue == [ToB(SEQ_MAX), ToA(SEQ_MAX + 1)] && !s.sweeping && s.left == 0
    && s.ledger.waitFor == map[]
  }

  /** They are a knot, so the next two ticks must tell one of them to yield. */
  lemma OpposedAreKnotted(s: System)
    requires Opposed(s)
    ensures Knotted(s, Ring.Circle([A, B], [0, 1], [PriorityOf(s, s.queue[0]), PriorityOf(s, s.queue[1])]))
  {
    var c := Ring.Circle([A, B], [0, 1], [PriorityOf(s, s.queue[0]), PriorityOf(s, s.queue[1])]);
    hide PriorityOf;
    assert Seeks(s, s.queue[0], 1, c.prio[0]) && Seeks(s, s.queue[1], 0, c.prio[1]);
    assert Tied(s, c, 0) && Tied(s, c, 1);
  }

  lemma Oppose(s: System) returns (n: System)
    requires Corridor().Valid() && Reachable(Corridor(), s) && Resent(s, SEQ_MAX)
    ensures Reachable(Corridor(), n) && Opposed(n)
  {
    hide Reachable, Config.Valid, Corridor, Requested, PriorityOf;
    n := Crosses(s, B, 1);
    ClaimFacts(s.ledger, B, 1, PriorityOf(s, ToA(SEQ_MAX + 1)));
  }

  /** In a cycle of two the walk alternates. */
  lemma {:induction false} Alternates(w: map<Name, Name>, a: Name, b: Name, k: nat)
    requires a in w && b in w && w[a] == b && w[b] == a
    ensures Follow(w, a, k) == Some(if k % 2 == 0 then a else b)
    decreases k
  {
    if k > 0 {
      Alternates(w, a, b, k - 1);
    }
  }

  /** In a cycle of two with different priorities the lower one is the victim. */
  lemma LowerOfTwo(w: map<Name, Name>, prio: map<Name, int>, a: Name, b: Name)
    requires a in w && b in w && w[a] == b && w[b] == a && a != b && PrioOf(prio, a) != PrioOf(prio, b)
    ensures Victim(w, prio, a) <==> PrioOf(prio, a) < PrioOf(prio, b)
  {
    forall k: nat ensures Follow(w, a, k) == Some(if k % 2 == 0 then a else b) {
      Alternates(w, a, b, k);
    }
    assert Follow(w, a, 2) == Some(a) && Follow(w, a, 1) == Some(b);
  }

  /** Both are deliveries past the last age: battery alone ranks them. */
  lemma Ranked(s: System, k: nat, j: nat)
    requires Placed(s, 20.0, true, true) || Placed(s, 100.0, true, true)
    requires k >= SEQ_MAX && j >= SEQ_MAX
    ensures PriorityOf(s, ToB(k)) == TIER_STEP + 50
    ensures PriorityOf(s, ToA(j)) == TIER_STEP + if s.robots[B].battery == 20.0 then 80 else 0
  {
    assert Round(50.0) == 50 && Round(20.0) == 20 && Round(100.0) == 100;
  }

  function Delayed(t: Task, n: nat): Task { t.(waitTicks := n) }

  /** In the first tick: `a` has asked and waits for `b`. */
  predicate FirstAsked(s: System) {
    && Facing(s, 20.0) && s.queue == [ToA(SEQ_MAX + 1), Delayed(ToB(SEQ_MAX), 1).(lastX := 0.0)]
    && s.sweeping && s.left == 1 && s.ledger.waitFor == map[A := B]
    && A in s.ledger.prio && s.ledger.prio[A] == TIER_STEP + 50
  }

  /** After it: both wait for each other, and `b` with the priority of an emptier battery. */
  predicate BothAsked(s: System, batteryB: real) {
    && Facing(s, batteryB)
    && s.queue == [Delayed(ToB(SEQ_MAX), 1), Delayed(ToA(SEQ_MAX + 1), 1).(lastX := 1.0)]
    && !s.sweeping && s.left == 0 && s.ledger.waitFor == map[A := B, B := A]
    && B in s.ledger.prio && s.ledger.prio[B] == TIER_STEP + 80
  }

  lemma AskFirst(s: System) returns (n: System)
    requires Corridor().Valid() && Reachable(Corridor(), s) && Opposed(s)
    ensures Reachable(Corridor(), n) && FirstAsked(n)
  {
    hide Reachable, Config.Valid, Corridor, HeadFate, Answered, AskedLedger, StoppedAhead;
    n := BeginTick(Corridor(), s);
    FirstAnswer(n);
    n := Asks(Corridor(), n, ToB(SEQ_MAX));
  }

  lemma FirstAnswer(s: System)
    requires Corridor().Valid() && Facing(s, 20.0) && s.ledger.waitFor == map[] && s.sweeping && s.left == 2
    requires s.queue == [ToB(SEQ_MAX), ToA(SEQ_MAX + 1)]
    ensures Pollable(Corridor(), s, s.queue[0]) && HeadFate(Corridor(), s) == Goes(ToB(SEQ_MAX))
    ensures Answered(s, ToB(SEQ_MAX)) == Wait && !StoppedAhead(s, ToB(SEQ_MAX))
    ensures AskedLedger(s, ToB(SEQ_MAX)).owner == s.ledger.owner
    ensures AskedLedger(s, ToB(SEQ_MAX)).waitFor == map[A := B]
    ensures A in AskedLedger(s, ToB(SEQ_MAX)).prio && AskedLedger(s, ToB(SEQ_MAX)).prio[A] == TIER_STEP + 50
  {
    Ranked(s, SEQ_MAX, SEQ_MAX + 1);
    var w := s.ledger.waitFor[A := B];
    assert !OnCycle(w, A) by {
      WaitsForNobody(w, A, B);
    }
    hide PriorityOf, Graph.Valid;
  }

  lemma AskSecond(s: System) returns (n: System)
    requires Corridor().Valid() && Reachable(Corridor(), s) && FirstAsked(s)
    ensures Reachable(Corridor(), n) && BothAsked(n, 20.0)
  {
    SecondAnswer(s);
    hide Reachable, Config.Valid, Corridor, HeadFate, Answered, AskedLedger, StoppedAhead;
    n := Asks(Corridor(), s, ToA(SEQ_MAX + 1).(lastX := 1.0));
    n := EndTick(Corridor(), n);
  }

  lemma SecondAnswer(s: System)
    requires Corridor().Valid() && FirstAsked(s)
    ensures var t := ToA(SEQ_MAX + 1).(lastX := 1.0);
            && Pollable(Corridor(), s, s.queue[0]) && HeadFate(Corridor(), s) == Goes(t)
            && Answered(s, t) == Wait && !StoppedAhead(s, t) && AskedLedger(s, t).owner == s.ledger.owner
            && AskedLedger(s, t).waitFor == map[A := B, B := A]
            && B in AskedLedger(s, t).prio && AskedLedger(s, t).prio[B] == TIER_STEP + 80
  {
    Ranked(s, SEQ_MAX, SEQ_MAX + 1);
    var t := ToA(SEQ_MAX + 1).(lastX := 1.0);
    assert PriorityOf(s, t) == PriorityOf(s, ToA(SEQ_MAX + 1));
    LowerOfTwo(s.ledger.waitFor[B := A], s.ledger.prio[B := TIER_STEP + 80], B, A);
    hide PriorityOf, Graph.Valid, Victim;
  }

  /** The battery of `b` is raised, and the next tick begins. */
  lemma Recharged(s: System) returns (n: System)
    requires Corridor().Valid() && Reachable(Corridor(), s) && BothAsked(s, 20.0)
    ensures Reachable(Corridor(), n) && BothAsked(n.(sweeping := false, left := 0), 100.0) && n.sweeping && n.left == 2
  {
    hide Reachable, Config.Valid, Corridor;
    n := SetsBattery(Corridor(), s, B, 100.0);
    n := BeginTick(Corridor(), n);
  }

  lemma LastAnswer(s: System)
    requires Corridor().Valid() && BothAsked(s.(sweeping := false, left := 0), 100.0) && s.sweeping && s.left == 2
    ensures Pollable(Corridor(), s, s.queue[0]) && Requests(Corridor(), s)
    ensures PriorityOf(s, s.queue[1]) < PriorityOf(s, s.queue[0])
    ensures Answered(s, HeadFate(Corridor(), s).task) == Deadlock
  {
    Ranked(s, SEQ_MAX, SEQ_MAX + 1);
    var t := Delayed(ToB(SEQ_MAX), 1);
    assert HeadFate(Corridor(), s) == Goes(t);
    assert PriorityOf(s, t) == PriorityOf(s, ToB(SEQ_MAX));
    assert PriorityOf(s, s.queue[1]) == PriorityOf(s, ToA(SEQ_MAX + 1));
    LowerOfTwo(s.ledger.waitFor[A := B], s.ledger.prio[A := TIER_STEP + 50], A, B);
    hide PriorityOf, Graph.Valid, Victim;
  }

  /** With one task more than SEQ_MAX, the task whose priority is strictly the highest is told to yield. */
  lemma TopPriorityCanYield() returns (cfg: Config, s: System)
    ensures cfg.Valid() && Reachable(cfg, s) && s.created == SEQ_MAX + 1
    ensures 0 < s.left <= |s.queue| && Pollable(cfg, s, s.queue[0]) && Requests(cfg, s)
    ensures forall i | 0 < i < |s.queue| :: PriorityOf(s, s.queue[i]) < PriorityOf(s, s.queue[0])
    ensures Answered(s, HeadFate(cfg, s).task) == Deadlock && !Unmatched(s)
  {
    cfg := Corridor();
    s := ResendOften(SEQ_MAX);
    hide Reachable, Config.Valid, Corridor;
    s := Oppose(s);
    s := AskFirst(s);
    s := AskSecond(s);
    s := Recharged(s);
    LastAnswer(s);
    hide PriorityOf, Requests, HeadFate, Answered, Pollable;
  }
}
