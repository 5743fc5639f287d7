/** Every reachable state of the fleet node satisfies the invariants. */
module Runs {
  import opened Names
  import opened Reservation
  import opened Navgraph
  import opened Patrol
  import opened Dispatch
  import opened Fleet
  import opened Traffic
  import opened Invariants

  lemma SubmitKeeps(cfg: Config, s: System, goal: int, armActions: int, forced: string, winner: string, plan: seq<int>)
    requires cfg.Valid() && Inv(cfg, s) && !s.sweeping && SubmitFits(cfg, s, goal, armActions, forced, winner, plan)
    ensures Inv(cfg, Submitted(cfg, s, goal, armActions, forced, winner, plan))
  {
    hide Launched, Inv, Roadworthy, Graph.Valid, ClosedWalk, StartOf, Graph.Shortest;
    if Judged(cfg, s, goal, armActions, forced, winner, plan) == Accepted {
      var r: Name := Chosen(forced, winner);
      var path := TaskPath(StartOf(cfg, s, r), goal, plan);
      var c := if s.robots[r].busy then Cancelled(s, r) else s;
      CancelKeeps(cfg, s, r);
      assert Tabled(s) by { TableSound(cfg, s); }
      BusyIffTask(s, r);
      ChosenNotStopped(cfg, s, goal, armActions, forced, winner, plan);
      PathRoadworthy(cfg, s, goal, armActions, forced, winner, plan);
      LaunchKeeps(cfg, c, NewTask(r, path, false, s.created + 1));
    }
  }

  lemma TableSound(cfg: Config, s: System)
    requires cfg.Valid() && Inv(cfg, s)
    ensures Tabled(s)
  {}

  lemma PathRoadworthy(cfg: Config, s: System, goal: int, armActions: int, forced: string, winner: string,
                       plan: seq<int>)
    requires cfg.Valid() && SubmitFits(cfg, s, goal, armActions, forced, winner, plan)
    requires Judged(cfg, s, goal, armActions, forced, winner, plan) == Accepted
    ensures var r: Name := Chosen(forced, winner);
            Roadworthy(cfg, NewTask(r, TaskPath(StartOf(cfg, s, r), goal, plan), false, s.created + 1))
  {
    hide StartOf;
  }

  /** The event of a submission, as a state change. */
  lemma Submitting(cfg: Config, s: System, e: Event)
    requires cfg.Valid() && e.Submit? && !s.sweeping
    requires SubmitFits(cfg, s, e.goal, e.armActions, e.forced, e.winner, e.plan)
    ensures Enabled(cfg, s, e)
    ensures Apply(cfg, s, e) == Submitted(cfg, s, e.goal, e.armActions, e.forced, e.winner, e.plan)
  {}

  lemma SubmitEnabled(cfg: Config, s: System, e: Event)
    requires cfg.Valid() && e.Submit? && Enabled(cfg, s, e)
    ensures !s.sweeping && SubmitFits(cfg, s, e.goal, e.armActions, e.forced, e.winner, e.plan)
    ensures Apply(cfg, s, e) == Submitted(cfg, s, e.goal, e.armActions, e.forced, e.winner, e.plan)
  {}

  /** A robot is marked busy exactly when the task list holds a task of its. */
  lemma BusyIffTask(s: System, r: Name)
    requires Tabled(s) && r in s.robots
    ensures s.robots[r].busy <==> HasTask(s.queue, r)
  {
    assert Booked(s, r);
    if HasTask(s.queue, r) {
      var i :| 0 <= i < |s.queue| && s.queue[i].robot == r;
      assert Registered(s, s.queue[i]);
    }
  }

  lemma ChosenNotStopped(cfg: Config, s: System, goal: int, armActions: int, forced: string, winner: string,
                         plan: seq<int>)
    requires cfg.Valid() && Tabled(s) && SubmitFits(cfg, s, goal, armActions, forced, winner, plan)
    requires Judged(cfg, s, goal, armActions, forced, winner, plan) == Accepted
    ensures ModeOf(s.modes, Chosen(forced, winner)) != Stopped
  {
    if forced == "" {
      var snap: seq<RobotInfo> :| Snapshot(s, snap) && Winner(cfg.graph, cfg.energy, goal, armActions, snap, winner);
      var i :| Wins(cfg.graph, cfg.energy, goal, armActions, snap, |snap|, i) && snap[i].name == winner;
      assert Candidate(s, snap[i].name) == Some(snap[i]);
    }
  }

  lemma LapRoadworthy(cfg: Config, r: Name, x: real, y: real, seqNo: int)
    requires cfg.Valid() && |cfg.route| >= 2
    ensures Roadworthy(cfg, NewTask(r, Lap(cfg.graph, cfg.route, x, y, -1), true, seqNo))
  {
    LapIsClosed(cfg.graph, cfg.route, x, y, -1);
  }

  lemma PatrolKeeps(cfg: Config, s: System, r: Name)
    requires cfg.Valid() && Inv(cfg, s) && Enabled(cfg, s, StartPatrol(r))
    ensures Inv(cfg, Apply(cfg, s, StartPatrol(r)))
  {
    var lap := Lap(cfg.graph, cfg.route, s.robots[r].x, s.robots[r].y, -1);
    LapRoadworthy(cfg, r, s.robots[r].x, s.robots[r].y, s.created + 1);
    hide Inv, Roadworthy, Lap;
    LaunchKeeps(cfg, s, NewTask(r, lap, true, s.created + 1));
  }

  lemma BoundaryKeeps(cfg: Config, s: System, e: Event)
    requires cfg.Valid() && Inv(cfg, s) && Enabled(cfg, s, e) && (e.Begin? || e.End?)
    ensures Inv(cfg, Apply(cfg, s, e))
  {
    TickKeeps(cfg, s, Apply(cfg, s, e));
  }

  lemma StepKeeps(cfg: Config, s: System, e: Event)
    requires cfg.Valid() && Inv(cfg, s) && Enabled(cfg, s, e)
    ensures Inv(cfg, Apply(cfg, s, e))
  {
    hide Inv;
    match e
    case Observe(r, x, y) => ObserveKeeps(cfg, s, r, x, y);
    case SetBattery(r, v) => BatteryKeeps(cfg, s, r, v);
    case SetMode(r, m) => ModeKeeps(cfg, s, r, m);
    case Submit(goal, armActions, forced, winner, plan) => SubmitKeeps(cfg, s, goal, armActions, forced, winner, plan);
    case StartPatrol(r) => PatrolKeeps(cfg, s, r);
    case Begin => BoundaryKeeps(cfg, s, e);
    case Poll(plan) => PollKeeps(cfg, s, plan);
    case End => BoundaryKeeps(cfg, s, e);
  }

  lemma {:induction false} RunKeeps(cfg: Config, s: System, es: seq<Event>)
    requires cfg.Valid() && Inv(cfg, s) && Legal(cfg, s, es)
    ensures Inv(cfg, Run(cfg, s, es))
    decreases |es|
  {
    if es != [] {
      StepKeeps(cfg, s, es[0]);
      hide Inv, Apply, Enabled;
      RunKeeps(cfg, Apply(cfg, s, es[0]), es[1..]);
    }
  }

  ghost predicate Reachable(cfg: Config, s: System)
    requires cfg.Valid()
  {
    exists es :: Legal(cfg, INITIAL, es) && Run(cfg, INITIAL, es) == s
  }

  /** The invariants hold in every state that any sequence of callbacks can produce. */
  lemma ReachableInv(cfg: Config, s: System)
    requires cfg.Valid() && Reachable(cfg, s)
    ensures Inv(cfg, s)
  {
    InitialInv(cfg);
    hide Inv, Legal, Run;
    var es :| Legal(cfg, INITIAL, es) && Run(cfg, INITIAL, es) == s;
    RunKeeps(cfg, INITIAL, es);
  }

  lemma InitialInv(cfg: Config)
    requires cfg.Valid()
    ensures Inv(cfg, INITIAL)
  {
    hide Config.Valid, Roadworthy, NotOverstated, Precedes;
    assert Tabled(INITIAL) && Orderly(INITIAL.queue, INITIAL.ledger);
  }

  lemma CreatedGrows(cfg: Config, s: System, e: Event)
    requires cfg.Valid() && Enabled(cfg, s, e)
    ensures s.created <= Apply(cfg, s, e).created
  {}

  lemma {:induction false} LegalAppend(cfg: Config, s: System, es: seq<Event>, e: Event)
    requires cfg.Valid() && Legal(cfg, s, es) && Enabled(cfg, Run(cfg, s, es), e)
    ensures Legal(cfg, s, es + [e]) && Run(cfg, s, es + [e]) == Apply(cfg, Run(cfg, s, es), e)
    decreases |es|
  {
    hide Enabled, Apply;
    if es == [] {
      assert ([e])[1..] == [] && es + [e] == [e];
      assert Legal(cfg, Apply(cfg, s, e), []);
    } else {
      assert (es + [e])[1..] == es[1..] + [e];
      LegalAppend(cfg, Apply(cfg, s, es[0]), es[1..], e);
    }
  }

  lemma ReachableStep(cfg: Config, s: System, e: Event)
    requires cfg.Valid() && Reachable(cfg, s) && Enabled(cfg, s, e)
    ensures Reachable(cfg, Apply(cfg, s, e))
  {
    hide Enabled, Apply, Legal, Run;
    var es :| Legal(cfg, INITIAL, es) && Run(cfg, INITIAL, es) == s;
    LegalAppend(cfg, INITIAL, es, e);
  }

  lemma {:induction false} ReachableRun(cfg: Config, s: System, es: seq<Event>)
    requires cfg.Valid() && Reachable(cfg, s) && Legal(cfg, s, es)
    ensures Reachable(cfg, Run(cfg, s, es))
    decreases |es|
  {
    if es != [] {
      ReachableStep(cfg, s, es[0]);
      hide Reachable, Enabled, Apply;
      ReachableRun(cfg, Apply(cfg, s, es[0]), es[1..]);
    }
  }

  lemma ReachableInitial(cfg: Config)
    requires cfg.Valid()
    ensures Reachable(cfg, INITIAL)
  {
    assert Legal(cfg, INITIAL, []) && Run(cfg, INITIAL, []) == INITIAL;
  }
}
