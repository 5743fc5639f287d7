/** The reservation theorems over whole runs, and exactly when the program breaks them. */
module Conservation {
  import opened Names
  import opened Reservation
  import opened Navgraph
  import opened Patrol
  import opened Fleet
  import opened Traffic
  import opened Invariants
  import opened Runs
  import opened Seats

  /** The events that lose track of a node: charging a stopped robot, and restarting a lap elsewhere. */
  ghost predicate Leaks(cfg: Config, s: System, e: Event)
    requires cfg.Valid() && Enabled(cfg, s, e)
  {
    match e
    case SetMode(r, m) => m == Charging && ModeOf(s.modes, r) == Stopped && !OwnsNothing(s.ledger, r)
    case Poll(plan) => LapLeaks(cfg, s)
    case _ => false
  }

  lemma SubmitConserves(cfg: Config, s: System, goal: int, armActions: int, forced: string, winner: string,
                        plan: seq<int>)
    requires cfg.Valid() && Inv(cfg, s) && Conserved(s) && !s.sweeping
    requires SubmitFits(cfg, s, goal, armActions, forced, winner, plan)
    ensures Conserved(Submitted(cfg, s, goal, armActions, forced, winner, plan))
  {
    if Judged(cfg, s, goal, armActions, forced, winner, plan) == Accepted {
      var r: Name := Chosen(forced, winner);
      var path := TaskPath(StartOf(cfg, s, r), goal, plan);
      CancelKeeps(cfg, s, r);
      CancelConserves(cfg, s, r);
      BusyIffTask(s, r);
      ChosenNotStopped(cfg, s, goal, armActions, forced, winner, plan);
      hide Inv;
      LaunchConserves(if s.robots[r].busy then Cancelled(s, r) else s, NewTask(r, path, false, s.created + 1));
    }
  }

  lemma PatrolConserves(cfg: Config, s: System, r: Name)
    requires cfg.Valid() && Inv(cfg, s) && Conserved(s) && Enabled(cfg, s, StartPatrol(r))
    ensures Conserved(Apply(cfg, s, StartPatrol(r)))
  {
    LapIsClosed(cfg.graph, cfg.route, s.robots[r].x, s.robots[r].y, -1);
    LaunchConserves(s, NewTask(r, Lap(cfg.graph, cfg.route, s.robots[r].x, s.robots[r].y, -1), true, s.created + 1));
  }

  /** An event keeps every reservation accounted for if and only if it is not one of the two leaks. */
  lemma StepConserves(cfg: Config, s: System, e: Event)
    requires cfg.Valid() && Inv(cfg, s) && Conserved(s) && Enabled(cfg, s, e)
    ensures Conserved(Apply(cfg, s, e)) <==> !Leaks(cfg, s, e)
  {
    match e
    case Observe(r, x, y) => SameSeats(s, Apply(cfg, s, e));
    case SetBattery(r, v) => SameSeats(s, Apply(cfg, s, e));
    case SetMode(r, m) =>
      if m == Charging { ChargeConserves(cfg, s, r); } else { ModeConserves(cfg, s, r, m); }
    case Submit(goal, armActions, forced, winner, plan) =>
      SubmitConserves(cfg, s, goal, armActions, forced, winner, plan);
    case StartPatrol(r) => PatrolConserves(cfg, s, r);
    case Begin => SameSeats(s, Apply(cfg, s, e));
    case Poll(plan) => PollConserves(cfg, s, plan);
    case End => SameSeats(s, Apply(cfg, s, e));
  }

  ghost predicate LeakFree(cfg: Config, s: System, es: seq<Event>)
    requires cfg.Valid() && Legal(cfg, s, es)
    decreases |es|
  {
    es == [] || (!Leaks(cfg, s, es[0]) && LeakFree(cfg, Apply(cfg, s, es[0]), es[1..]))
  }

  /** Without a leak every owned node is the seat of its owner's task, or a stopped robot's only node. */
  lemma {:induction false} RunConserves(cfg: Config, s: System, es: seq<Event>)
    requires cfg.Valid() && Inv(cfg, s) && Conserved(s) && Legal(cfg, s, es) && LeakFree(cfg, s, es)
    ensures Conserved(Run(cfg, s, es))
    decreases |es|
  {
    if es != [] {
      StepKeeps(cfg, s, es[0]);
      StepConserves(cfg, s, es[0]);
      hide Inv, Conserved;
      RunConserves(cfg, Apply(cfg, s, es[0]), es[1..]);
    }
  }

  // ---------------------------------------------------------------- a map on which laps never stray

  /** Route vertices at different places are at least two arrival radii apart. */
  predicate WellSpaced(cfg: Config)
    requires cfg.graph.InRange(cfg.route)
  {
    forall i, j | 0 <= i < |cfg.route| && 0 <= j < |cfg.route| && cfg.route[i] != cfg.route[j] ::
      cfg.graph.Length(cfg.route[i], cfg.route[j]) >= 2.0 * ARRIVE
  }

  lemma CloseVertices(g: Graph, u: int, v: int, x: real, y: real)
    requires g.Has(u) && g.Has(v) && Euclidean(g) && Away(g, u, x, y) < ARRIVE && Away(g, v, x, y) < ARRIVE
    ensures g.Length(u, v) < 2.0 * ARRIVE
  {
    var a, b := g.vertices[u], g.vertices[v];
    NearBoth(g.hypot, x - a.x, y - a.y, x - b.x, y - b.y, ARRIVE);
    assert (x - b.x) - (x - a.x) == a.x - b.x && (y - b.y) - (y - a.y) == a.y - b.y;
  }

  /** On such a map a lap restarts at the very vertex the robot has just arrived at. */
  lemma LapRestartsHere(cfg: Config, x: real, y: real, v: int)
    requires cfg.Valid() && Euclidean(cfg.graph) && WellSpaced(cfg) && v in cfg.route
    requires Away(cfg.graph, v, x, y) < ARRIVE
    ensures Lap(cfg.graph, cfg.route, x, y, -1)[0] == v
  {
    var g, route := cfg.graph, cfg.route;
    var i :| 0 <= i < |route| && route[i] == v;
    var k := EntryBelow(g, route, |route|, x, y);
    EntryIsNearest(g, route, |route|, x, y);
    assert Entry(g, route, x, y, -1) == k && Turned(route, k)[0] == route[Wrap(k, |route|)];
    assert Away(g, route[k], x, y) <= Away(g, route[i], x, y);
    hide EntryBelow, Lap, Away, Graph.Length, Euclidean;
    CloseVertices(g, route[k], route[i], x, y);
  }

  /** Then a task asks for its next node from the very seat it has. */
  lemma AsksFromItsSeat(cfg: Config, s: System)
    requires cfg.Valid() && Euclidean(cfg.graph) && WellSpaced(cfg) && Inv(cfg, s) && 0 < s.left
    requires Pollable(cfg, s, s.queue[0]) && Requests(cfg, s)
    ensures HeadFate(cfg, s).task.Here() == Seat(s.queue[0])
  {
    HeadPollable(cfg, s);
    if HeadFate(cfg, s).task.Here() != Seat(s.queue[0]) {
      StraysOnlyAtLapEnd(cfg, s);
      assert Roadworthy(cfg, s.queue[0]);
      var r := s.robots[s.queue[0].robot];
      LapRestartsHere(cfg, r.x, r.y, s.queue[0].Target());
    }
  }

  lemma NoLapLeak(cfg: Config, s: System)
    requires cfg.Valid() && Euclidean(cfg.graph) && WellSpaced(cfg) && Inv(cfg, s) && 0 < s.left
    requires Pollable(cfg, s, s.queue[0])
    ensures !LapLeaks(cfg, s)
  {
    if LapLeaks(cfg, s) {
      AsksFromItsSeat(cfg, s);
    }
  }

  ghost predicate NeverChargesStopped(cfg: Config, s: System, es: seq<Event>)
    requires cfg.Valid() && Legal(cfg, s, es)
    decreases |es|
  {
    es == [] || ((es[0].SetMode? && es[0].mode == Charging ==> ModeOf(s.modes, es[0].name) != Stopped)
                 && NeverChargesStopped(cfg, Apply(cfg, s, es[0]), es[1..]))
  }

  lemma {:induction false} SpacedLeakFree(cfg: Config, s: System, es: seq<Event>)
    requires cfg.Valid() && Euclidean(cfg.graph) && WellSpaced(cfg) && Inv(cfg, s)
    requires Legal(cfg, s, es) && NeverChargesStopped(cfg, s, es)
    ensures LeakFree(cfg, s, es)
    decreases |es|
  {
    if es != [] {
      StepKeeps(cfg, s, es[0]);
      if es[0].Poll? {
        NoLapLeak(cfg, s);
      }
      hide Inv, WellSpaced, Euclidean;
      SpacedLeakFree(cfg, Apply(cfg, s, es[0]), es[1..]);
    }
  }

  /**
   On a map whose patrol vertices are two arrival radii apart, as long as nobody charges a stopped robot,
   every reservation of every reachable state is a task's seat or the one node of a stopped robot.
   */
  lemma ReservationsConserved(cfg: Config, es: seq<Event>)
    requires cfg.Valid() && Euclidean(cfg.graph) && WellSpaced(cfg)
    requires Legal(cfg, INITIAL, es) && NeverChargesStopped(cfg, INITIAL, es)
    ensures Conserved(Run(cfg, INITIAL, es))
  {
    SpacedLeakFree(cfg, INITIAL, es);
    RunConserves(cfg, INITIAL, es);
  }

  // ---------------------------------------------------------------- motion safety

  /** A moving robot owns the node it moves to, so no two move to the same one. */
  lemma MovingTargetsOwned(cfg: Config, s: System, i: nat, j: nat)
    requires cfg.Valid() && Inv(cfg, s) && i < |s.queue| && j < |s.queue| && s.queue[i].moving
    ensures s.queue[i].idx < |s.queue[i].path| && Owns(s.ledger, s.queue[i].robot, s.queue[i].Target())
    ensures i != j && s.queue[j].moving ==>
              s.queue[j].idx < |s.queue[j].path| && s.queue[i].Target() != s.queue[j].Target()
  {
    assert OwnsTarget(s.ledger, s.queue[i]) && OwnsTarget(s.ledger, s.queue[j]);
    assert i < j ==> s.queue[i].robot != s.queue[j].robot;
    assert j < i ==> s.queue[j].robot != s.queue[i].robot;
  }

  /** `u` is on its way along the lane that `t` is about to enter, in the opposite direction. */
  predicate HeadOn(t: Task, u: Task)
    requires 0 < t.idx < |t.path|
  {
    u.moving && 0 < u.idx < |u.path| && u.Target() == t.Here() && u.Here() == t.Target()
  }

  /** A robot that departs from a node it holds meets nobody head-on: no moving robot is even heading for that node. */
  lemma HeldDeparturesAreSafe(cfg: Config, s: System, j: nat)
    requires cfg.Valid() && Inv(cfg, s) && 0 < s.left <= |s.queue| && Pollable(cfg, s, s.queue[0])
    requires Requests(cfg, s) && 0 < j < |s.queue|
    requires Owns(s.ledger, s.queue[0].robot, HeadFate(cfg, s).task.Here())
    ensures s.queue[j].moving ==>
              s.queue[j].idx < |s.queue[j].path| && s.queue[j].Target() != HeadFate(cfg, s).task.Here()
    ensures !HeadOn(HeadFate(cfg, s).task, s.queue[j])
  {
    assert OwnsTarget(s.ledger, s.queue[j]);
    assert s.queue[0].robot != s.queue[j].robot;
  }

  /** The node `t` stands at is owned by another robot, which is on its way to it from the node `t` asks for. */
  predicate OwnerComesFromTarget(s: System, t: Task)
    requires 0 < t.idx < |t.path|
  {
    && t.Here() in s.ledger.owner && s.ledger.owner[t.Here()] != t.robot
    && exists j :: 0 <= j < |s.queue| && Oncoming(s.queue[j], s.ledger.owner[t.Here()], t)
  }

  predicate Oncoming(u: Task, r: Name, t: Task)
    requires 0 < t.idx < |t.path|
  {
    u.robot == r && HeadOn(t, u)
  }

  /** Whoever comes towards the task about to ask owns the node that task stands at, leaks or not. */
  lemma OnlyTheOwnerMeets(cfg: Config, s: System, j: nat)
    requires cfg.Valid() && Inv(cfg, s) && 0 < s.left <= |s.queue| && Pollable(cfg, s, s.queue[0])
    requires Requests(cfg, s) && 0 < j < |s.queue| && HeadOn(HeadFate(cfg, s).task, s.queue[j])
    ensures Owns(s.ledger, s.queue[j].robot, HeadFate(cfg, s).task.Here())
    ensures s.queue[j].robot != HeadFate(cfg, s).task.robot
  {
    HeadPollable(cfg, s);
    hide Progress;
    assert OwnsTarget(s.ledger, s.queue[j]);
    assert s.queue[0].robot != s.queue[j].robot;
  }

  /**
   The task about to ask has another robot coming towards it on the very lane it asks for if and only if the
   node it stands at is owned by another robot that is on its way to it from the node asked for. Only one
   robot, the owner of one node, has to be looked at.
   */
  lemma HeadOnIff(cfg: Config, s: System)
    requires cfg.Valid() && Inv(cfg, s) && 0 < s.left <= |s.queue|
    requires Pollable(cfg, s, s.queue[0]) && Requests(cfg, s)
    ensures (exists j :: 0 < j < |s.queue| && HeadOn(HeadFate(cfg, s).task, s.queue[j])) <==>
            OwnerComesFromTarget(s, HeadFate(cfg, s).task)
  {
    HeadPollable(cfg, s);
    var t := HeadFate(cfg, s).task;
    hide Progress;
    if j :| 0 < j < |s.queue| && HeadOn(t, s.queue[j]) {
      OnlyTheOwnerMeets(cfg, s, j);
      assert Oncoming(s.queue[j], s.ledger.owner[t.Here()], t);
    }
  }

  /** Where every reservation is accounted for, where the owner is heading need not be asked. */
  lemma OwnersComeHere(cfg: Config, s: System, t: Task, j: nat)
    requires cfg.Valid() && Inv(cfg, s) && Conserved(s) && 0 < t.idx < |t.path| && j < |s.queue|
    requires Owns(s.ledger, s.queue[j].robot, t.Here()) && s.queue[j].moving
    ensures 0 < s.queue[j].idx < |s.queue[j].path| && s.queue[j].Target() == t.Here()
  {
    assert Accounted(s, t.Here()) && SitsAt(s.queue[j], t.Here());
  }

  /**
   A departure is head-on exactly when the node ahead is free or the robot's own, while the node it departs
   from belongs to another robot, on its way to it from the node ahead. A task departing from a node that is its own,
   or nobody's, or that of a robot standing or coming from elsewhere, is safe.
   */
  lemma DepartsHeadOnIff(cfg: Config, s: System)
    requires cfg.Valid() && Inv(cfg, s) && 0 < s.left <= |s.queue|
    requires Pollable(cfg, s, s.queue[0]) && Requests(cfg, s)
    ensures var t := HeadFate(cfg, s).task;
            (Answered(s, t) == Grant && exists j :: 0 < j < |s.queue| && HeadOn(t, s.queue[j])) <==>
            Free(s.ledger, t.robot, t.Target()) && OwnerComesFromTarget(s, t)
  {
    HeadOnIff(cfg, s);
    hide Inv, Progress, OwnerComesFromTarget, HeadOn, Victim;
  }
}
