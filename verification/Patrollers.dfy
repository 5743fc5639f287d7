/** Who patrols, and what the reports of positions and batteries do. */
module Patrollers {
  import opened Names
  import opened Reservation
  import opened Patrol
  import opened Fleet
  import opened Invariants
  import opened Runs
  import opened Histories
  import opened Submissions

  // ---------------------------------------------------------------- patrols

  predicate Rides(s: System, t: Task) {
    t.patrol ==> t.robot in s.modes && s.modes[t.robot] in {Patrolling, Charging}
  }

  /** Only robots that have been put in mode PATROL, and perhaps sent to charge since, are on patrol. */
  ghost predicate PatrolsAllowed(s: System) {
    forall t | t in s.queue :: Rides(s, t)
  }

  lemma PollPatrols(cfg: Config, s: System, plan: seq<int>)
    requires cfg.Valid() && Inv(cfg, s) && Enabled(cfg, s, Poll(plan)) && PatrolsAllowed(s)
    ensures PatrolsAllowed(Polled(cfg, s, plan))
  {
    hide Inv, HeadAfter, PlanFits, Resolved, Progress, Answered, AskedLedger, ReleasedAll;
    PolledQueue(cfg, s, plan);
    if HeadFate(cfg, s).Goes? {
      HeadSeq(cfg, s, plan);
    }
    assert Rides(s, s.queue[0]);
    forall t | t in Polled(cfg, s, plan).queue ensures Rides(Polled(cfg, s, plan), t) {
      assert t in s.queue || (HeadFate(cfg, s).Goes? && t == HeadAfter(cfg, s, plan));
    }
  }

  lemma StepPatrols(cfg: Config, s: System, e: Event)
    requires cfg.Valid() && Inv(cfg, s) && Enabled(cfg, s, e) && PatrolsAllowed(s)
    ensures PatrolsAllowed(Apply(cfg, s, e))
  {
    hide Inv, Polled, PlanFits, SubmitFits, Requested, ReleasedTasks, Dropped, StartOf, Lap, Without;
    match e
    case Observe(_, _, _) =>
    case SetBattery(_, _) =>
    case SetMode(r, _) => WithoutOthers(s.queue, r);
    case Submit(_, _, forced, winner, _) =>
      SubmitEnabled(cfg, s, e);
      if Judged(cfg, s, e.goal, e.armActions, forced, winner, e.plan) == Accepted {
        WithoutOthers(s.queue, Chosen(forced, winner));
      }
    case StartPatrol(_) =>
    case Begin =>
    case Poll(plan) => PollPatrols(cfg, s, plan);
    case End =>
  }

  lemma {:induction false} RunPatrols(cfg: Config, s: System, es: seq<Event>)
    requires cfg.Valid() && Inv(cfg, s) && Legal(cfg, s, es) && PatrolsAllowed(s)
    ensures PatrolsAllowed(Run(cfg, s, es))
    decreases |es|
  {
    if es != [] {
      StepKeeps(cfg, s, es[0]);
      StepPatrols(cfg, s, es[0]);
      hide Inv, Apply, Enabled, PatrolsAllowed;
      RunPatrols(cfg, Apply(cfg, s, es[0]), es[1..]);
    }
  }

  lemma ReachablePatrols(cfg: Config, s: System)
    requires cfg.Valid() && Reachable(cfg, s)
    ensures PatrolsAllowed(s)
  {
    hide Inv, Legal, Run, Config.Valid;
    InitialInv(cfg);
    var es :| Legal(cfg, INITIAL, es) && Run(cfg, INITIAL, es) == s;
    RunPatrols(cfg, INITIAL, es);
  }

  /** A patrol can start exactly for the known robots in mode PATROL that have no task. */
  lemma StartsIff(cfg: Config, s: System, r: Name)
    requires cfg.Valid() && Inv(cfg, s) && !s.sweeping && |cfg.route| >= 2
    ensures Enabled(cfg, s, StartPatrol(r)) <==>
            r in s.robots && r in s.modes && s.modes[r] == Patrolling && !HasTask(s.queue, r)
  {
    if r in s.robots {
      assert Tabled(s) by { TableSound(cfg, s); }
      BusyIffTask(s, r);
    }
    hide Inv, Tabled;
  }

  // ---------------------------------------------------------------- reports of positions and batteries

  /**
   A robot is where it was last reported, and deliveries and stops start from the vertex nearest to that place. A
   first report makes it known: full, idle, and in the default mode unless one was set before.
   */
  lemma ReportedPositions(cfg: Config, s: System, r: Name, x: real, y: real)
    requires cfg.Valid()
    ensures var n := Observed(cfg, s, r, x, y);
            && r in n.robots && n.robots[r].name == (if r in s.robots then s.robots[r].name else r)
            && StartOf(cfg, n, r) == cfg.graph.NearestVertex(x, y)
            && n.robots[r].x == x && n.robots[r].y == y
            && n.robots[r].battery == (if r in s.robots then s.robots[r].battery else 100.0)
            && n.robots[r].busy == (r in s.robots && s.robots[r].busy)
            && n.robots - {r} == s.robots - {r} && n.modes - {r} == s.modes - {r}
            && r in n.modes
            && n.modes[r] == if r in s.modes then s.modes[r] else if cfg.patrolByDefault then Patrolling else Idling
  {}

  /** A battery is what was last set, held to the scale from 0 to 100; nothing else changes. */
  lemma ReportedBatteries(s: System, r: Name, v: real)
    ensures var n := Charged(s, r, v);
            && r in n.robots && 0.0 <= n.robots[r].battery <= 100.0
            && (0.0 <= v <= 100.0 ==> n.robots[r].battery == v)
            && (v < 0.0 ==> n.robots[r].battery == 0.0) && (v > 100.0 ==> n.robots[r].battery == 100.0)
            && (r in s.robots ==> n.robots[r] == s.robots[r].(battery := n.robots[r].battery))
            && n.robots - {r} == s.robots - {r} && n.modes == s.modes
  {}
}
