/** Dispatching and accepting a delivery agree, and accepting one is atomic. */
module Submissions {
  import opened Names
  import opened Reservation
  import opened Navgraph
  import opened Dispatch
  import opened Fleet
  import opened Traffic
  import opened Invariants
  import opened Runs
  import opened Seats

  /** A robot the dispatcher may choose: a candidate that can reach the goal and finish with its reserve. */
  ghost predicate Biddable(cfg: Config, s: System, goal: int, armActions: int, r: Name)
    requires cfg.Valid() && r in s.robots
  {
    Candidate(s, r).Some? && CanBid(cfg.graph, cfg.energy, goal, armActions, Candidate(s, r).value)
  }

  lemma WinnerIsBiddable(cfg: Config, s: System, snap: seq<RobotInfo>, goal: int, armActions: int, winner: string)
    requires cfg.Valid() && Snapshot(s, snap) && Winner(cfg.graph, cfg.energy, goal, armActions, snap, winner)
    ensures winner != "" ==> winner in s.robots && Biddable(cfg, s, goal, armActions, winner)
    ensures winner == "" ==> forall r | r in s.robots :: !Biddable(cfg, s, goal, armActions, r)
  {
    if winner != "" {
      var i :| Wins(cfg.graph, cfg.energy, goal, armActions, snap, |snap|, i) && snap[i].name == winner;
      assert Candidate(s, snap[i].name) == Some(snap[i]);
    } else {
      forall r | r in s.robots ensures !Biddable(cfg, s, goal, armActions, r) {
        if Candidate(s, r).Some? {
          var i :| 0 <= i < |snap| && snap[i].name == r;
          assert Candidate(s, snap[i].name) == Some(snap[i]);
          assert !CanBid(cfg.graph, cfg.energy, goal, armActions, snap[i]);
        }
      }
    }
  }

  /** For a robot that could bid, the fleet node's own path and battery checks succeed. */
  lemma BiddersPassTheGate(cfg: Config, s: System, goal: int, armActions: int, r: Name, plan: seq<int>)
    requires cfg.Valid() && r in s.robots && cfg.graph.Has(goal) && Biddable(cfg, s, goal, armActions, r)
    requires cfg.graph.Shortest(StartOf(cfg, s, r), goal, -1, plan)
    ensures var path := TaskPath(StartOf(cfg, s, r), goal, plan);
            |path| >= 2 && cfg.graph.InRange(path)
            && s.robots[r].battery >= Need(cfg.energy, cfg.graph.Cost(path), armActions)
  {
    var g, start := cfg.graph, StartOf(cfg, s, r);
    FareIs(g, start, goal, plan);
    if start == goal {
      assert [goal, goal][..1] == [goal];
      assert g.Cost([goal, goal]) == 0.0;
    }
  }

  // ---------------------------------------------------------------- who is offered a delivery

  lemma {:induction false} OnPatrolIs(q: seq<Task>, r: Name, i: nat)
    requires Distinct(q) && i < |q| && q[i].robot == r
    ensures OnPatrol(q, r) <==> q[i].patrol
    decreases |q|
  {
    if i > 0 {
      OnPatrolIs(q[1..], r, i - 1);
    }
  }

  lemma {:induction false} OffPatrol(q: seq<Task>, r: Name)
    requires !HasTask(q, r)
    ensures !OnPatrol(q, r)
    decreases |q|
  {
    if q != [] {
      assert q[0].robot != r;
      OffPatrol(q[1..], r);
    }
  }

  /** The robot is neither stopped nor charging, and whatever it does is a patrol. */
  predicate Available(s: System, r: Name) {
    && !(r in s.modes && s.modes[r] in {Stopped, Charging})
    && forall i | 0 <= i < |s.queue| && s.queue[i].robot == r :: s.queue[i].patrol
  }

  /** The dispatcher sees every robot that is neither stopped nor charging, and as idle exactly those on no delivery. */
  lemma CandidateIs(cfg: Config, s: System, r: Name)
    requires cfg.Valid() && Inv(cfg, s) && r in s.robots
    ensures Candidate(s, r).None? <==> r in s.modes && s.modes[r] in {Stopped, Charging}
    ensures Candidate(s, r).Some? ==>
              var c := Candidate(s, r).value;
              c == s.robots[r].(busy := c.busy) && (!c.busy <==> Available(s, r))
  {
    assert Tabled(s) by { TableSound(cfg, s); }
    BusyIffTask(s, r);
    hide Tabled, OnPatrol;
    if HasTask(s.queue, r) {
      var i :| 0 <= i < |s.queue| && s.queue[i].robot == r;
      OnPatrolIs(s.queue, r, i);
      assert forall j | 0 <= j < |s.queue| && s.queue[j].robot == r :: j == i;
    } else {
      OffPatrol(s.queue, r);
    }
  }

  /** What is left of the robot's battery after the shortest way to the goal and the arm's work. */
  ghost function LeftAfter(cfg: Config, s: System, r: Name, goal: int, armActions: int): real
    requires cfg.Valid() && r in s.robots && FareTo(cfg, s, r, goal).Some?
  {
    Left(cfg.energy, FareTo(cfg, s, r, goal).value, armActions, s.robots[r].battery)
  }

  /** The length of a shortest way to the goal from the vertex nearest to the robot. */
  ghost function FareTo(cfg: Config, s: System, r: Name, goal: int): Option<real>
    requires cfg.Valid() && r in s.robots
  {
    Fare(cfg.graph, cfg.graph.NearestVertex(s.robots[r].x, s.robots[r].y), goal)
  }

  /** The robot can be given the delivery: available, and able to reach the goal and keep its reserve. */
  ghost predicate Fit(cfg: Config, s: System, goal: int, armActions: int, r: Name)
    requires cfg.Valid() && r in s.robots
  {
    && Available(s, r) && FareTo(cfg, s, r, goal).Some?
    && LeftAfter(cfg, s, r, goal, armActions) >= cfg.energy.reserve
  }

  /** The shorter way, or the same and the smaller name. */
  predicate Preferred(fare: real, name: Name, otherFare: real, other: Name) {
    fare < otherFare || (fare == otherFare && Before(name, other))
  }

  lemma FitIsBiddable(cfg: Config, s: System, goal: int, armActions: int, r: Name)
    requires cfg.Valid() && Inv(cfg, s) && r in s.robots
    ensures Biddable(cfg, s, goal, armActions, r) <==> Fit(cfg, s, goal, armActions, r)
    ensures Biddable(cfg, s, goal, armActions, r) ==>
              Bid(cfg.graph, goal, Candidate(s, r).value) == FareTo(cfg, s, r, goal).value
  {
    CandidateIs(cfg, s, r);
    hide Inv, Candidate, Available, Fare, Need, Left;
    if FareTo(cfg, s, r, goal).Some? {
      GateIs(cfg.energy, FareTo(cfg, s, r, goal).value, armActions, s.robots[r].battery);
    }
  }

  /**
   A delivery without a named robot is accepted exactly when some robot is fit for it, and it goes to the fit one
   with the shortest way, of equally near ones to the first by name. So a robot on a delivery is never taken off
   it, and one on patrol is always considered.
   */
  lemma AutoDispatchIsExact(cfg: Config, s: System, goal: int, armActions: int, winner: string, plan: seq<int>)
    requires cfg.Valid() && Inv(cfg, s) && Enabled(cfg, s, Submit(goal, armActions, "", winner, plan))
    ensures Judged(cfg, s, goal, armActions, "", winner, plan) ==
            if !cfg.graph.Has(goal) then BadGoal
            else if exists r :: r in s.robots && Fit(cfg, s, goal, armActions, r) then Accepted
            else NoRobotAvailable
    ensures Judged(cfg, s, goal, armActions, "", winner, plan) == Accepted ==>
              && winner in s.robots && Fit(cfg, s, goal, armActions, winner)
              && forall r | r in s.robots && Fit(cfg, s, goal, armActions, r) && r != winner ::
                   Preferred(FareTo(cfg, s, winner, goal).value, winner, FareTo(cfg, s, r, goal).value, r)
  {
    if cfg.graph.Has(goal) {
      var snap: seq<RobotInfo> :| Snapshot(s, snap) && Winner(cfg.graph, cfg.energy, goal, armActions, snap, winner);
      WinnerIsBiddable(cfg, s, snap, goal, armActions, winner);
      hide Snapshot, Winner, Graph.Shortest, Fit, FareTo, Inv, Biddable;
      forall r | r in s.robots ensures Biddable(cfg, s, goal, armActions, r) <==> Fit(cfg, s, goal, armActions, r) {
        FitIsBiddable(cfg, s, goal, armActions, r);
      }
      if winner != "" {
        BiddersPassTheGate(cfg, s, goal, armActions, winner, plan);
        forall r | r in s.robots && Fit(cfg, s, goal, armActions, r) && r != winner
          ensures FareTo(cfg, s, winner, goal).Some? && FareTo(cfg, s, r, goal).Some?
          ensures Preferred(FareTo(cfg, s, winner, goal).value, winner, FareTo(cfg, s, r, goal).value, r)
        {
          WinnerIsNearest(cfg, s, snap, goal, armActions, winner, r);
        }
      }
    }
  }

  lemma WinnerIsNearest(cfg: Config, s: System, snap: seq<RobotInfo>, goal: int, armActions: int, winner: Name, r: Name)
    requires cfg.Valid() && Inv(cfg, s)
    requires Snapshot(s, snap) && Winner(cfg.graph, cfg.energy, goal, armActions, snap, winner)
    requires winner in s.robots && Biddable(cfg, s, goal, armActions, winner)
    requires r in s.robots && Fit(cfg, s, goal, armActions, r) && r != winner
    ensures Fit(cfg, s, goal, armActions, winner)
    ensures Preferred(FareTo(cfg, s, winner, goal).value, winner, FareTo(cfg, s, r, goal).value, r)
  {
    FitIsBiddable(cfg, s, goal, armActions, winner);
    FitIsBiddable(cfg, s, goal, armActions, r);
    hide Inv, Fit, Candidate, CanBid, Bid;
    var i :| Wins(cfg.graph, cfg.energy, goal, armActions, snap, |snap|, i) && snap[i].name == winner;
    assert Candidate(s, snap[i].name) == Some(snap[i]);
    var j :| 0 <= j < |snap| && snap[j].name == r;
    assert Candidate(s, snap[j].name) == Some(snap[j]);
    hide Before, FareTo;
  }

  /**
   The verdict on a delivery for a named robot, whatever plan the planner came up with: each reason in its turn,
   and the gate is the reserve that must be left after the shortest way and the arm's work.
   */
  lemma NamedSubmitIsExact(cfg: Config, s: System, goal: int, armActions: int, name: Name, winner: string,
                           plan: seq<int>)
    requires cfg.Valid() && Enabled(cfg, s, Submit(goal, armActions, name, winner, plan))
    ensures Judged(cfg, s, goal, armActions, name, winner, plan) ==
            if !cfg.graph.Has(goal) then BadGoal
            else if name !in s.robots then UnknownRobot
            else if name in s.modes && s.modes[name] == Stopped then RobotStopped
            else if FareTo(cfg, s, name, goal).None? then NoPath
            else if LeftAfter(cfg, s, name, goal, armActions) < cfg.energy.reserve then InsufficientBattery
            else Accepted
  {
    hide Graph.Shortest, Fare, Need, Left, Graph.Valid, Graph.Cost, Winner, Snapshot;
    if Plans(cfg, s, goal, name, winner) {
      var g, start := cfg.graph, StartOf(cfg, s, name);
      var path := TaskPath(start, goal, plan);
      FareIs(g, start, goal, plan);
      if start == goal {
        Stays(g, goal);
      }
      if |path| >= 2 {
        GateIs(cfg.energy, g.Cost(path), armActions, s.robots[name].battery);
      }
    }
  }

  lemma Stays(g: Graph, goal: int)
    requires g.Valid() && g.Has(goal)
    ensures Fare(g, goal, goal) == Some(0.0) && g.Cost([goal, goal]) == 0.0
  {
    assert [goal, goal][..1] == [goal];
  }

  lemma {:induction false} WithoutOthers(q: seq<Task>, r: Name)
    ensures !HasTask(Without(q, r), r)
    ensures forall t | t in q && t.robot != r :: t in Without(q, r)
    ensures forall t | t in Without(q, r) :: t in q
    decreases |q|
  {
    if q != [] {
      WithoutOthers(q[1..], r);
    }
  }

  /** `n` is `s` with everything `r` was doing replaced by the task `t`. */
  ghost predicate Replaces(s: System, n: System, r: Name, t: Task) {
    && |n.queue| > 0 && n.queue[|n.queue| - 1] == t && !HasTask(n.queue[..|n.queue| - 1], r)
    && t.robot == r && t.startSeq == n.created == s.created + 1 && |t.path| > 0 && t.idx == 1 && !t.moving && !t.patrol
    && (forall u | u in s.queue && u.robot != r :: u in n.queue)
    && (forall u | u in n.queue && u != t :: u in s.queue)
  }

  /** One of `r`'s tasks stands at `node` or is after it. */
  predicate Uses(q: seq<Task>, r: Name, node: int) {
    exists i :: 0 <= i < |q| && q[i].robot == r && UsesNode(q[i], node)
  }

  predicate UsesNode(t: Task, node: int) {
    0 < t.idx < |t.path| && (node == t.Here() || node == t.Target())
  }

  /** The others own what they owned; `r` has given up what its tasks used, and gained `start` at most. */
  ghost predicate Frees(s: System, n: System, r: Name, start: int) {
    && (forall node | node in s.ledger.owner && s.ledger.owner[node] != r ::
          node in n.ledger.owner && n.ledger.owner[node] == s.ledger.owner[node])
    && (forall node | node in n.ledger.owner && n.ledger.owner[node] != r ::
          node in s.ledger.owner && n.ledger.owner[node] == s.ledger.owner[node])
    && (forall node | Owns(n.ledger, r, node) && node != start :: Owns(s.ledger, r, node) && !Uses(s.queue, r, node))
  }

  lemma UsesOnly(q: seq<Task>, r: Name, i: nat, node: int)
    requires Distinct(q) && i < |q| && q[i].robot == r && Uses(q, r, node)
    ensures UsesNode(q[i], node)
  {
    var j :| 0 <= j < |q| && q[j].robot == r && UsesNode(q[j], node);
    assert i == j;
  }

  lemma CancelFrees(cfg: Config, s: System, r: Name, start: int)
    requires cfg.Valid() && Inv(cfg, s) && r in s.robots
    ensures Frees(s, if s.robots[r].busy then Cancelled(s, r) else s, r, start)
  {
    hide Inv, Roadworthy, Uses, Without, ReleasedTasks, Config.Valid, UsesNode;
    assert Tabled(s) by { TableSound(cfg, s); }
    BusyIffTask(s, r);
    hide Tabled;
    if s.robots[r].busy {
      var i :| 0 <= i < |s.queue| && s.queue[i].robot == r;
      assert Distinct(s.queue) && 0 < s.queue[i].idx < |s.queue[i].path| by { TaskSound(cfg, s, i); }
      CancelFacts(s, r, i);
      WithoutOne(s.ledger, s.queue, r, i);
      forall node | Owns(Cancelled(s, r).ledger, r, node) ensures !Uses(s.queue, r, node) {
        if Uses(s.queue, r, node) {
          UsesOnly(s.queue, r, i, node);
        }
      }
    } else {
      forall node ensures !Uses(s.queue, r, node) {
        UsesNothing(s.queue, r, node);
      }
    }
  }

  lemma UsesNothing(q: seq<Task>, r: Name, node: int)
    requires !HasTask(q, r)
    ensures !Uses(q, r, node)
  {}

  lemma TaskSound(cfg: Config, s: System, i: nat)
    requires cfg.Valid() && Inv(cfg, s) && i < |s.queue|
    ensures Distinct(s.queue) && 0 < s.queue[i].idx < |s.queue[i].path|
  {
    assert Roadworthy(cfg, s.queue[i]);
  }

  lemma LaunchFrees(s: System, c: System, t: Task)
    requires |t.path| > 0 && Frees(s, c, t.robot, t.path[0])
    ensures Frees(s, Launched(c, t), t.robot, t.path[0])
  {
    hide Victim, PriorityOf, Uses;
  }

  lemma LaunchReplaces(s: System, c: System, r: Name, t: Task)
    requires !HasTask(c.queue, r) && c.created == s.created
    requires forall u | u in s.queue && u.robot != r :: u in c.queue
    requires forall u | u in c.queue :: u in s.queue
    requires t.robot == r && t.startSeq == s.created + 1 && |t.path| > 0 && t.idx == 1 && !t.moving && !t.patrol
    ensures Replaces(s, Launched(c, t), r, t)
    ensures OwnsNothing(c.ledger, r) ==> forall node | Owns(Launched(c, t).ledger, r, node) :: node == t.path[0]
  {
    var n := Launched(c, t);
    assert n.queue[..|n.queue| - 1] == c.queue;
  }

  /**
   An accepted submission replaces whatever its robot was doing in one step: the new task is the youngest
   and the robot's only one, it starts at the robot's nearest vertex and ends at the requested goal, the
   other tasks and reservations stay, and the nodes of the old task are given up; unless one had been stranded
   before, the robot owns nothing but the new start. A rejected one changes nothing.
   */
  lemma SubmitReplaces(cfg: Config, s: System, e: Event)
    requires cfg.Valid() && Inv(cfg, s) && e.Submit? && Enabled(cfg, s, e)
    ensures if Judged(cfg, s, e.goal, e.armActions, e.forced, e.winner, e.plan) != Accepted then Apply(cfg, s, e) == s
            else
              var n, r := Apply(cfg, s, e), Chosen(e.forced, e.winner);
              && r in s.robots && |n.queue| > 0
              && Replaces(s, n, r, n.queue[|n.queue| - 1])
              && n.queue[|n.queue| - 1].path[0] == StartOf(cfg, s, r) && n.queue[|n.queue| - 1].Goal() == e.goal
              && Frees(s, n, r, StartOf(cfg, s, r))
              && (Conserved(s) ==> forall node | Owns(n.ledger, r, node) :: node == StartOf(cfg, s, r))
  {
    hide Inv, Conserved, Apply, Enabled, Cancelled, Frees, SubmitFits, Launched, Graph.Valid, StartOf;
    SubmitEnabled(cfg, s, e);
    if Judged(cfg, s, e.goal, e.armActions, e.forced, e.winner, e.plan) == Accepted {
      var r: Name := Chosen(e.forced, e.winner);
      var path := TaskPath(StartOf(cfg, s, r), e.goal, e.plan);
      var t := NewTask(r, path, false, s.created + 1);
      PathEnds(cfg, s, e, r);
      assert Tabled(s) by { TableSound(cfg, s); }
      ChosenNotStopped(cfg, s, e.goal, e.armActions, e.forced, e.winner, e.plan);
      hide Judged;
      var c := if s.robots[r].busy then Cancelled(s, r) else s;
      assert Apply(cfg, s, e) == Launched(c, t);
      ClearedForSubmit(cfg, s, r);
      CancelFrees(cfg, s, r, path[0]);
      LaunchFrees(s, c, t);
      LaunchReplaces(s, c, r, t);
    }
  }

  lemma ClearedForSubmit(cfg: Config, s: System, r: Name)
    requires cfg.Valid() && Inv(cfg, s) && !s.sweeping && r in s.robots && ModeOf(s.modes, r) != Stopped
    ensures var c := if s.robots[r].busy then Cancelled(s, r) else s;
            && !HasTask(c.queue, r) && c.created == s.created && (Conserved(s) ==> OwnsNothing(c.ledger, r))
            && (forall u | u in s.queue && u.robot != r :: u in c.queue)
            && (forall u | u in c.queue :: u in s.queue)
  {
    BusyIffTask(s, r);
    WithoutOthers(s.queue, r);
    if Conserved(s) {
      CancelConserves(cfg, s, r);
      hide Inv;
      TasklessOwnsNothing(if s.robots[r].busy then Cancelled(s, r) else s, r);
    }
  }

  lemma PathEnds(cfg: Config, s: System, e: Event, r: Name)
    requires cfg.Valid() && e.Submit? && Enabled(cfg, s, e) && r == Chosen(e.forced, e.winner)
    requires Judged(cfg, s, e.goal, e.armActions, e.forced, e.winner, e.plan) == Accepted
    ensures var path := TaskPath(StartOf(cfg, s, r), e.goal, e.plan);
            |path| >= 2 && path[0] == StartOf(cfg, s, r) && path[|path| - 1] == e.goal
  {}
}
