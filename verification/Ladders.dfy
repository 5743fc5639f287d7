/** Who outranks whom: the priority ladder on the fleet's tasks, and the events that move a task on it. */
module Ladders {
  import opened Names
  import opened Reservation
  import opened Priorities
  import opened Fleet
  import opened Invariants
  import opened Histories

  predicate Charges(s: System, r: Name) {
    r in s.modes && s.modes[r] == Charging
  }

  /** Neither stuck nor of a robot that is to charge. */
  predicate Ordinary(s: System, t: Task) {
    !t.stuck && !Charges(s, t.robot)
  }

  /** Both stuck; or neither, and both of charging robots; or both ordinary, and both deliveries or both patrols. */
  predicate SameRank(s: System, t: Task, u: Task) {
    t.stuck == u.stuck
    && (t.stuck || (Charges(s, t.robot) == Charges(s, u.robot) && (Charges(s, t.robot) || t.patrol == u.patrol)))
  }

  /**
   The ladder: stuck tasks first, then those of robots in mode CHARGE, then deliveries, then patrols, whatever
   their ages and batteries.
   */
  lemma LadderOfTasks(s: System, t: Task, u: Task)
    requires t.startSeq >= 0 && u.startSeq >= 0
    ensures t.stuck && !u.stuck ==> PriorityOf(s, u) < PriorityOf(s, t)
    ensures !t.stuck && Charges(s, t.robot) && Ordinary(s, u) ==> PriorityOf(s, u) < PriorityOf(s, t)
    ensures Ordinary(s, t) && Ordinary(s, u) && !t.patrol && u.patrol ==> PriorityOf(s, u) < PriorityOf(s, t)
  {
    RanksAreTiers(s, t, u);
    EncodingIsLexicographic(TierOf(s.modes, u), u.startSeq, BatteryOf(s.robots, u.robot),
                            TierOf(s.modes, t), t.startSeq, BatteryOf(s.robots, t.robot));
    hide TierOf, Priority, BatteryOf;
  }

  lemma RanksAreTiers(s: System, t: Task, u: Task)
    ensures SameRank(s, t, u) <==> TierOf(s.modes, t) == TierOf(s.modes, u)
    ensures t.stuck && !u.stuck ==> TierOf(s.modes, u) < TierOf(s.modes, t)
    ensures !t.stuck && Charges(s, t.robot) && Ordinary(s, u) ==> TierOf(s.modes, u) < TierOf(s.modes, t)
    ensures Ordinary(s, t) && Ordinary(s, u) && !t.patrol && u.patrol ==> TierOf(s.modes, u) < TierOf(s.modes, t)
  {}

  /** On one rung the older task comes first while ages differ, and then the robot with the emptier battery. */
  lemma RungsOfTasks(s: System, t: Task, u: Task)
    requires 0 <= t.startSeq <= u.startSeq && SameRank(s, t, u) && t.robot in s.robots && u.robot in s.robots
    ensures t.startSeq < u.startSeq && t.startSeq < 100000 ==> PriorityOf(s, u) < PriorityOf(s, t)
    ensures var b, c := s.robots[t.robot].battery, s.robots[u.robot].battery;
            t.startSeq >= 100000 && 0.0 <= b <= 100.0 && 0.0 <= c <= 100.0 ==>
              (b + 1.0 <= c ==> PriorityOf(s, u) < PriorityOf(s, t))
              && (c + 1.0 <= b ==> PriorityOf(s, t) < PriorityOf(s, u))
  {
    RanksAreTiers(s, t, u);
    var b, c := s.robots[t.robot].battery, s.robots[u.robot].battery;
    EncodingIsLexicographic(TierOf(s.modes, u), u.startSeq, c, TierOf(s.modes, t), t.startSeq, b);
    EncodingIsLexicographic(TierOf(s.modes, t), t.startSeq, b, TierOf(s.modes, u), u.startSeq, c);
    hide TierOf, Priority, SameRank;
  }

  lemma NumbersPositive(cfg: Config, s: System)
    requires cfg.Valid() && Inv(cfg, s)
    ensures forall t | t in s.queue :: t.startSeq > 0
  {
    forall t | t in s.queue ensures t.startSeq > 0 {
      var i :| 0 <= i < |s.queue| && s.queue[i] == t;
      assert Registered(s, s.queue[i]);
    }
  }

  /** Sending a robot to charge lifts its task above every ordinary one at once, and touches nothing else. */
  lemma ChargingLifts(cfg: Config, s: System, r: Name, t: Task)
    requires cfg.Valid() && Inv(cfg, s) && Enabled(cfg, s, SetMode(r, Charging)) && t in s.queue && t.robot == r
    ensures var n := Apply(cfg, s, SetMode(r, Charging));
            && n.queue == s.queue && n.ledger == s.ledger && n.robots == s.robots
            && (forall u | u in n.queue && u.robot != r :: PriorityOf(n, u) == PriorityOf(s, u))
            && (forall u | u in n.queue && Ordinary(n, u) :: PriorityOf(n, u) < PriorityOf(n, t))
  {
    var n := Apply(cfg, s, SetMode(r, Charging));
    NumbersPositive(cfg, s);
    hide Inv;
    forall u | u in n.queue && Ordinary(n, u) ensures PriorityOf(n, u) < PriorityOf(n, t) {
      LadderOfTasks(n, t, u);
    }
  }

  /**
   What a turn does to the asking task's rank. Told to yield without a way around, it comes to outrank every task
   that is not stuck. A granted departure or a detour puts it back on the rung of its mode and kind. Told to wait,
   it stays where it was.
   */
  lemma TurnsMoveRanks(cfg: Config, s: System, plan: seq<int>)
    requires cfg.Valid() && Inv(cfg, s) && Enabled(cfg, s, Poll(plan)) && Requests(cfg, s)
    ensures |Polled(cfg, s, plan).queue| > 0
    ensures var t, n := HeadFate(cfg, s).task, Polled(cfg, s, plan);
            var d, v := Answered(s, t), n.queue[|n.queue| - 1];
            var stays := v.path == t.path && v.idx == t.idx;
            && (d == Deadlock && stays ==>
                  forall u | u in n.queue && !u.stuck :: PriorityOf(n, u) < PriorityOf(n, v))
            && (d == Grant || (d == Deadlock && !stays) ==>
                  PriorityOf(n, v) == PriorityOf(s, s.queue[0].(stuck := false)))
            && (d == Wait ==> PriorityOf(n, v) == PriorityOf(s, s.queue[0]))
  {
    hide Inv, PlanFits, Progress, Answered, Pollable, Resolved, StoppedAhead, HeadAfter;
    HeadPollable(cfg, s);
    PolledQueue(cfg, s, plan);
    HeadSeq(cfg, s, plan);
    StuckAfter(cfg, s, plan);
    var n := Polled(cfg, s, plan);
    var v := n.queue[|n.queue| - 1];
    NumbersPositive(cfg, s);
    assert s.queue[0] in s.queue && v.startSeq > 0;
    forall u | u in n.queue && v.stuck && !u.stuck ensures PriorityOf(n, u) < PriorityOf(n, v) {
      assert u == v || u in s.queue;
      LadderOfTasks(n, v, u);
    }
  }

  /** The flag behind it. */
  lemma StuckAfter(cfg: Config, s: System, plan: seq<int>)
    requires cfg.Valid() && Inv(cfg, s) && Enabled(cfg, s, Poll(plan)) && Requests(cfg, s)
    ensures var t, v := HeadFate(cfg, s).task, HeadAfter(cfg, s, plan);
            var stays := v.path == t.path && v.idx == t.idx;
            match Answered(s, t)
            case Grant => !v.stuck
            case Deadlock => v.stuck <==> stays
            case Wait => v.stuck == s.queue[0].stuck
  {
    hide Inv, Progress, Answered, StoppedAhead;
    HeadPollable(cfg, s);
    var t := HeadFate(cfg, s).task;
    if Answered(s, t) == Deadlock && Detours(cfg, t, Deadlock, StoppedAhead(s, t), plan) {
      assert PlanAnswers(cfg, s, t, plan);
      ProperPlan(cfg.graph, t.Here(), DetourGoal(cfg, t, false), t.Target(), plan);
    }
    hide DetourGoal, PlanFits, Searches;
  }
}
