/** The life of one task over a run: its goal, its detours, its stalls and how it ends. */
module Histories {
  import opened Names
  import opened Reservation
  import opened Navgraph
  import opened Patrol
  import opened Fleet
  import opened Invariants
  import opened Runs

  /** Every task created as number `id` has the property (there is at most one). */
  predicate AllOf(q: seq<Task>, id: int, p: Task -> bool) {
    forall i | 0 <= i < |q| && q[i].startSeq == id :: p(q[i])
  }

  /** The head task of a turn that does not end it. */
  ghost function HeadAfter(cfg: Config, s: System, plan: seq<int>): Task
    requires cfg.Valid() && 0 < s.left <= |s.queue| && Pollable(cfg, s, s.queue[0]) && HeadFate(cfg, s).Goes?
  {
    var t := HeadFate(cfg, s).task;
    if Requests(cfg, s) then Resolved(cfg, t, Answered(s, t), StoppedAhead(s, t), plan) else t
  }

  /** The event is the turn of task `id`. */
  ghost predicate Turn(cfg: Config, s: System, e: Event, id: int)
    requires cfg.Valid() && Enabled(cfg, s, e)
  {
    e.Poll? && s.queue[0].startSeq == id
  }

  lemma {:induction false} WithoutAllOf(q: seq<Task>, r: Name, id: int, p: Task -> bool)
    requires AllOf(q, id, p)
    ensures AllOf(Without(q, r), id, p)
    decreases |q|
  {
    if q != [] {
      WithoutAllOf(q[1..], r, id, p);
    }
  }

  /** A turn takes the head away, and puts back what became of it unless it ended. */
  lemma PolledQueue(cfg: Config, s: System, plan: seq<int>)
    requires cfg.Valid() && 0 < s.left <= |s.queue| && Pollable(cfg, s, s.queue[0])
    ensures Polled(cfg, s, plan).queue ==
            s.queue[1..] + if HeadFate(cfg, s).Goes? then [HeadAfter(cfg, s, plan)] else []
  {
    hide Progress, Resolved, Answered, Pollable;
  }

  lemma PollAllOf(cfg: Config, s: System, plan: seq<int>, id: int, p: Task -> bool)
    requires cfg.Valid() && Inv(cfg, s) && Enabled(cfg, s, Poll(plan)) && AllOf(s.queue, id, p)
    requires s.queue[0].startSeq == id && HeadFate(cfg, s).Goes? ==> p(HeadAfter(cfg, s, plan))
    ensures AllOf(Polled(cfg, s, plan).queue, id, p)
  {
    HeadPollable(cfg, s);
    if HeadFate(cfg, s).Goes? {
      var v := HeadAfter(cfg, s, plan);
      HeadSeq(cfg, s, plan);
      PolledQueue(cfg, s, plan);
      hide HeadAfter, Polled, Inv;
    } else {
      PolledQueue(cfg, s, plan);
      hide Polled, Inv;
    }
  }

  lemma ResolvedKeeps(cfg: Config, t: Task, d: Decision, stopped: bool, plan: seq<int>)
    requires t.idx < |t.path|
    ensures var u := Resolved(cfg, t, d, stopped, plan);
            u.robot == t.robot && u.startSeq == t.startSeq && u.patrol == t.patrol
            && u.noMove == t.noMove && u.lastX == t.lastX && u.lastY == t.lastY
  {
    hide Detours;
  }

  /** A task keeps its robot, its number and its kind in its turn. */
  lemma HeadSeq(cfg: Config, s: System, plan: seq<int>)
    requires cfg.Valid() && Inv(cfg, s) && 0 < s.left <= |s.queue| && Pollable(cfg, s, s.queue[0])
    requires HeadFate(cfg, s).Goes?
    ensures var t, u := s.queue[0], HeadAfter(cfg, s, plan);
            u.startSeq == t.startSeq && u.robot == t.robot && u.patrol == t.patrol
            && u.noMove == HeadFate(cfg, s).task.noMove
  {
    hide Inv, Pollable, Progress, Resolved, Answered, StoppedAhead, Roadworthy, Bounded, Graph.Valid;
    HeadPollable(cfg, s);
    if Requests(cfg, s) {
      var t := HeadFate(cfg, s).task;
      ResolvedKeeps(cfg, t, Answered(s, t), StoppedAhead(s, t), plan);
    }
  }

  lemma SubmitAllOf(cfg: Config, s: System, e: Event, id: int, p: Task -> bool)
    requires cfg.Valid() && e.Submit? && Enabled(cfg, s, e) && id <= s.created && AllOf(s.queue, id, p)
    ensures AllOf(Apply(cfg, s, e).queue, id, p)
  {
    if Judged(cfg, s, e.goal, e.armActions, e.forced, e.winner, e.plan) == Accepted {
      WithoutAllOf(s.queue, Chosen(e.forced, e.winner), id, p);
    }
  }

  /** A task changes only in its own turn. */
  lemma OnlyItsTurnChanges(cfg: Config, s: System, e: Event, id: int, p: Task -> bool)
    requires cfg.Valid() && Inv(cfg, s) && Enabled(cfg, s, e) && id <= s.created && AllOf(s.queue, id, p)
    requires Turn(cfg, s, e, id) && HeadFate(cfg, s).Goes? ==> p(HeadAfter(cfg, s, e.plan))
    ensures AllOf(Apply(cfg, s, e).queue, id, p)
  {
    hide Inv;
    match e
    case SetMode(r, m) => WithoutAllOf(s.queue, r, id, p);
    case Submit(_, _, _, _, _) => SubmitAllOf(cfg, s, e, id, p);
    case Poll(plan) => PollAllOf(cfg, s, plan, id, p);
    case _ =>
  }

  /**
   A task is rerouted exactly when its turn searches and some route to the detour's goal keeps clear of the
   blocked node. The detour is then a shortest such route from where the robot is; otherwise the path stays.
   */
  lemma DetoursExactlyWhenPossible(cfg: Config, s: System, plan: seq<int>)
    requires cfg.Valid() && Inv(cfg, s) && Enabled(cfg, s, Poll(plan)) && Requests(cfg, s)
    ensures var t := HeadFate(cfg, s).task;
            var d, stopped := Answered(s, t), StoppedAhead(s, t);
            var goal, u := DetourGoal(cfg, t, d == Wait && stopped), HeadAfter(cfg, s, plan);
            && 0 < u.idx < |u.path| && u.Here() == t.Here()
            && if Searches(cfg, t, d, stopped) && t.Here() != goal
                  && exists p :: cfg.graph.Route(t.Here(), goal, t.Target(), p) then
                 u.idx == 1 && !u.moving && u.Target() != t.Target()
                 && cfg.graph.Shortest(t.Here(), goal, t.Target(), u.path)
               else u.path == t.path && u.idx == t.idx
  {
    HeadPollable(cfg, s);
    hide Inv, Continues, Pollable, Progress, Answered, StoppedAhead, DetourGoal, Searches, Resolved;
    hide Graph.Shortest, Graph.Route, Graph.Valid;
    var t := HeadFate(cfg, s).task;
    assert PlanAnswers(cfg, s, t, plan);
    AnswerResolves(cfg, t, Answered(s, t), StoppedAhead(s, t), plan);
  }

  /** The node is owned by a robot in mode STOP. */
  predicate HeldByStopped(s: System, node: int) {
    node in s.ledger.owner && s.ledger.owner[node] in s.modes && s.modes[s.ledger.owner[node]] == Stopped
  }

  /** Where a detour leads: a patrol to its next route vertex, unless it avoids a stopped robot; else to the goal. */
  function Beyond(cfg: Config, s: System, t: Task, d: Decision): int
    requires t.idx < |t.path|
  {
    if t.patrol && !(d == Wait && HeldByStopped(s, t.Target())) then Succ(cfg.route, t.Target())
    else t.path[|t.path| - 1]
  }

  /** Told to yield with one of three detours left; or told to wait for a stopped robot, or for the 33rd time. */
  predicate MayDetour(s: System, t: Task, d: Decision)
    requires t.idx < |t.path|
  {
    || (d == Deadlock && t.reroutes < 3)
    || (d == Wait && (HeldByStopped(s, t.Target()) || t.waitTicks + 1 >= 33))
  }

  /**
   The whole answer to a request, seen from outside: when the task is rerouted, to where, and how its counters go.
   A detour is taken if and only if it is allowed and there is a way that keeps clear of the blocked node.
   */
  lemma ReroutedIff(cfg: Config, s: System, plan: seq<int>)
    requires cfg.Valid() && Inv(cfg, s) && Enabled(cfg, s, Poll(plan)) && Requests(cfg, s)
    ensures var t, u := HeadFate(cfg, s).task, HeadAfter(cfg, s, plan);
            var d, g := Answered(s, t), cfg.graph;
            var goal := Beyond(cfg, s, t, d);
            var around := MayDetour(s, t, d) && t.Here() != goal && exists p :: g.Route(t.Here(), goal, t.Target(), p);
            && (around ==> u.idx == 1 && g.Shortest(t.Here(), goal, t.Target(), u.path) && u.path != [])
            && (!around ==> u.path == t.path && u.idx == t.idx)
            && u.reroutes == t.reroutes + (if around && d == Deadlock then 1 else 0)
            && u.waitTicks == (if d == Grant then 0
                               else if d == Deadlock || HeldByStopped(s, t.Target()) then t.waitTicks
                               else if t.waitTicks + 1 >= 33 then 0
                               else t.waitTicks + 1)
            && (u.moving <==> d == Grant)
  {
    hide Inv, Continues, Pollable, Progress, Answered, Graph.Shortest, Graph.Route, Graph.Valid, Succ;
    HeadPollable(cfg, s);
    DetoursExactlyWhenPossible(cfg, s, plan);
    var t := HeadFate(cfg, s).task;
    BeyondIs(cfg, s, t, Answered(s, t));
    DetourTaken(cfg, s, plan);
    hide PlanFits, DetourGoal, Beyond, MayDetour, Searches;
  }

  lemma BeyondIs(cfg: Config, s: System, t: Task, d: Decision)
    requires cfg.Valid() && 0 < t.idx < |t.path|
    ensures StoppedAhead(s, t) <==> HeldByStopped(s, t.Target())
    ensures DetourGoal(cfg, t, d == Wait && StoppedAhead(s, t)) == Beyond(cfg, s, t, d)
    ensures Searches(cfg, t, d, StoppedAhead(s, t)) ==> MayDetour(s, t, d)
    ensures MayDetour(s, t, d) && (exists p :: cfg.graph.Route(t.Here(), Beyond(cfg, s, t, d), t.Target(), p)) ==>
              Searches(cfg, t, d, StoppedAhead(s, t))
  {
    hide Succ;
    if p :| cfg.graph.Route(t.Here(), Beyond(cfg, s, t, d), t.Target(), p) {
      assert cfg.graph.Has(p[|p| - 1]);
    }
  }

  lemma DetourTaken(cfg: Config, s: System, plan: seq<int>)
    requires cfg.Valid() && Inv(cfg, s) && Enabled(cfg, s, Poll(plan)) && Requests(cfg, s)
    ensures var t := HeadFate(cfg, s).task;
            var d, stopped := Answered(s, t), StoppedAhead(s, t);
            var goal := DetourGoal(cfg, t, d == Wait && stopped);
            Detours(cfg, t, d, stopped, plan) <==>
            Searches(cfg, t, d, stopped) && t.Here() != goal
            && exists p :: cfg.graph.Route(t.Here(), goal, t.Target(), p)
  {
    hide Inv, Progress, Answered, StoppedAhead, DetourGoal, Graph.Shortest, Graph.Route, Graph.Valid, Searches;
    HeadPollable(cfg, s);
    var t := HeadFate(cfg, s).task;
    var d, stopped := Answered(s, t), StoppedAhead(s, t);
    if Searches(cfg, t, d, stopped) {
      assert PlanAnswers(cfg, s, t, plan);
      ProperPlan(cfg.graph, t.Here(), DetourGoal(cfg, t, d == Wait && stopped), t.Target(), plan);
    }
  }

  /** Told to move, and within 0.35 m of the node its task is moving to. */
  predicate Arrives(cfg: Config, s: System)
    requires |s.queue| > 0 && Pollable(cfg, s, s.queue[0])
  {
    var t, r := s.queue[0], s.robots[s.queue[0].robot];
    var v := cfg.graph.vertices[t.path[t.idx]];
    t.moving && cfg.graph.hypot(r.x - v.x, r.y - v.y) < 0.35
  }

  /**
   Stuck detection and arrival, seen from outside. A turn that goes on remembers where the robot is; an arrival
   moves the task on by one node, or a patrol to its next lap, and gives it back its patience and its detours;
   without an arrival nothing else changes. A delivery that has arrived at its last node is completed.
   */
  lemma TurnsProgress(cfg: Config, s: System)
    requires cfg.Valid() && Inv(cfg, s) && 0 < s.left <= |s.queue| && Pollable(cfg, s, s.queue[0])
    ensures var t, r, f := s.queue[0], s.robots[s.queue[0].robot], HeadFate(cfg, s);
            match f
            case Ends(Failed, _) => true
            case Ends(Completed, nodes) =>
              Arrives(cfg, s) && !t.patrol && t.idx + 1 == |t.path| && nodes == [t.path[t.idx]]
            case Goes(u) =>
              && u.lastX == r.x && u.lastY == r.y && u.stuck == t.stuck && (u.moving <==> t.moving && !Arrives(cfg, s))
              && (!Arrives(cfg, s) ==>
                    u.path == t.path && u.idx == t.idx && u.reroutes == t.reroutes && u.waitTicks == t.waitTicks)
              && (Arrives(cfg, s) ==>
                    && u.reroutes == 0 && u.waitTicks == 0
                    && if t.idx + 1 < |t.path| then u.path == t.path && u.idx == t.idx + 1
                       else t.patrol && u.idx == 1 && u.path == Lap(cfg.graph, cfg.route, r.x, r.y, -1))
  {
    hide Inv, Lap, Graph.Valid;
    HeadPollable(cfg, s);
  }

  /** So a robot that waits for the very goal of its detour, as before an occupied destination, is never rerouted. */
  lemma BlockedGoalsAreAwaited(cfg: Config, s: System, plan: seq<int>)
    requires cfg.Valid() && Inv(cfg, s) && Enabled(cfg, s, Poll(plan)) && Requests(cfg, s)
    requires var t := HeadFate(cfg, s).task;
             DetourGoal(cfg, t, Answered(s, t) == Wait && StoppedAhead(s, t)) == t.Target()
    ensures var t, u := HeadFate(cfg, s).task, HeadAfter(cfg, s, plan);
            u.path == t.path && u.idx == t.idx
  {
    hide Inv, Progress, Answered, StoppedAhead, DetourGoal, Searches, Resolved, Graph.Shortest, HeadAfter;
    DetoursExactlyWhenPossible(cfg, s, plan);
    var t := HeadFate(cfg, s).task;
    if t.Here() != t.Target() {
      NoWayIntoAvoided(cfg.graph, t.Here(), t.Target());
    }
  }

  lemma NoWayIntoAvoided(g: Graph, from: int, to: int)
    requires g.Valid() && from != to
    ensures forall p :: !g.Route(from, to, to, p)
  {
    forall p ensures !g.Route(from, to, to, p) {
      if |p| > 1 && p[|p| - 1] == to {
        assert 0 < |p| - 1;
      }
    }
  }

  lemma AnswerResolves(cfg: Config, t: Task, d: Decision, stopped: bool, plan: seq<int>)
    requires cfg.Valid() && 0 < t.idx < |t.path|
    requires Searches(cfg, t, d, stopped) ==>
               cfg.graph.Shortest(t.Here(), DetourGoal(cfg, t, d == Wait && stopped), t.Target(), plan)
    ensures var goal, u := DetourGoal(cfg, t, d == Wait && stopped), Resolved(cfg, t, d, stopped, plan);
            && 0 < u.idx < |u.path| && u.Here() == t.Here()
            && if Searches(cfg, t, d, stopped) && t.Here() != goal
                  && exists p :: cfg.graph.Route(t.Here(), goal, t.Target(), p) then
                 u.idx == 1 && !u.moving && u.Target() != t.Target()
                 && cfg.graph.Shortest(t.Here(), goal, t.Target(), u.path)
               else u.path == t.path && u.idx == t.idx
  {
    var goal := DetourGoal(cfg, t, d == Wait && stopped);
    hide DetourGoal;
    if Searches(cfg, t, d, stopped) {
      ProperPlan(cfg.graph, t.Here(), goal, t.Target(), plan);
    }
    hide Graph.Shortest, Graph.Route, Graph.Valid;
  }

  /** A planner's answer leads somewhere exactly when there is a way to another vertex. */
  lemma ProperPlan(g: Graph, from: int, to: int, avoid: int, plan: seq<int>)
    requires g.Valid() && g.Shortest(from, to, avoid, plan)
    ensures |plan| >= 2 <==> from != to && exists p :: g.Route(from, to, avoid, p)
    ensures |plan| >= 2 ==> plan[0] == from && plan[1] != avoid
  {
    if |plan| >= 2 {
      assert plan[0] != plan[|plan| - 1];
    }
    if p :| from != to && g.Route(from, to, avoid, p) {
      assert g.Has(p[0]) && g.Has(p[|p| - 1]) && plan != [];
    }
  }

  // ---------------------------------------------------------------- deliveries keep their goal

  predicate BoundFor(t: Task, goal: int) {
    !t.patrol && |t.path| > 0 && t.Goal() == goal
  }

  lemma HeadKeepsGoal(cfg: Config, s: System, plan: seq<int>, goal: int)
    requires cfg.Valid() && Inv(cfg, s) && Enabled(cfg, s, Poll(plan)) && HeadFate(cfg, s).Goes?
    requires BoundFor(s.queue[0], goal)
    ensures BoundFor(HeadAfter(cfg, s, plan), goal)
  {
    hide Inv, Answered, StoppedAhead, Lap;
    HeadPollable(cfg, s);
    var t := HeadFate(cfg, s).task;
    assert t.path == s.queue[0].path;
    hide Progress;
    if Requests(cfg, s) && Detours(cfg, t, Answered(s, t), StoppedAhead(s, t), plan) {
      assert cfg.graph.Shortest(t.Here(), t.Goal(), t.Target(), plan);
      assert cfg.graph.Route(t.Here(), t.Goal(), t.Target(), plan);
    }
  }

  /** However often it is rerouted, a delivery ends at the vertex it was submitted for. */
  lemma GoalKept(cfg: Config, s: System, e: Event, id: int, goal: int)
    requires cfg.Valid() && Inv(cfg, s) && Enabled(cfg, s, e) && id <= s.created
    requires AllOf(s.queue, id, t => BoundFor(t, goal))
    ensures AllOf(Apply(cfg, s, e).queue, id, t => BoundFor(t, goal))
  {
    if Turn(cfg, s, e, id) && HeadFate(cfg, s).Goes? {
      HeadKeepsGoal(cfg, s, e.plan, goal);
    }
    OnlyItsTurnChanges(cfg, s, e, id, t => BoundFor(t, goal));
  }

  /** In this turn the robot of task `id` is told to be moving and stands within the arrival radius of `goal`. */
  ghost predicate AtGoalNow(cfg: Config, s: System, e: Event, r: Name, id: int, goal: int)
    requires cfg.Valid() && Enabled(cfg, s, e)
  {
    Turn(cfg, s, e, id) && s.queue[0].robot == r && s.queue[0].moving
    && cfg.graph.Has(goal) && Away(cfg.graph, goal, s.robots[r].x, s.robots[r].y) < ARRIVE
  }

  ghost predicate AtGoalDuring(cfg: Config, s: System, es: seq<Event>, r: Name, id: int, goal: int)
    requires cfg.Valid() && Legal(cfg, s, es)
    decreases |es|
  {
    es != [] && (AtGoalNow(cfg, s, es[0], r, id, goal) || AtGoalDuring(cfg, Apply(cfg, s, es[0]), es[1..], r, id, goal))
  }

  lemma CompletionIsArrival(cfg: Config, s: System, e: Event, r: Name, id: int, goal: int)
    requires cfg.Valid() && Inv(cfg, s) && Enabled(cfg, s, e) && AllOf(s.queue, id, t => BoundFor(t, goal))
    requires Note(r, id, Completed) !in s.notes && Note(r, id, Completed) in Apply(cfg, s, e).notes
    ensures AtGoalNow(cfg, s, e, r, id, goal)
  {
    hide Resolved, Answered, StoppedAhead, Lap, AskedLedger, ReleasedAll;
    if e.Poll? {
      HeadPollable(cfg, s);
      assert Roadworthy(cfg, s.queue[0]);
      hide Inv;
      assert HeadFate(cfg, s).Ends? && s.queue[0].startSeq == id && BoundFor(s.queue[0], goal);
    }
  }

  /** COMPLETED is published for a delivery only in a turn in which its robot has arrived at the submitted goal. */
  lemma {:induction false} CompletedOnlyAtGoal(cfg: Config, s: System, es: seq<Event>, r: Name, id: int, goal: int)
    requires cfg.Valid() && Inv(cfg, s) && Legal(cfg, s, es) && id <= s.created
    requires AllOf(s.queue, id, t => BoundFor(t, goal))
    requires Note(r, id, Completed) !in s.notes && Note(r, id, Completed) in Run(cfg, s, es).notes
    ensures AtGoalDuring(cfg, s, es, r, id, goal)
    decreases |es|
  {
    var n := Apply(cfg, s, es[0]);
    if Note(r, id, Completed) in n.notes {
      CompletionIsArrival(cfg, s, es[0], r, id, goal);
    } else {
      StepKeeps(cfg, s, es[0]);
      GoalKept(cfg, s, es[0], id, goal);
      CreatedGrows(cfg, s, es[0]);
      CompletedOnlyAtGoal(cfg, n, es[1..], r, id, goal);
    }
  }
}
