/**
 Knots: robots each of which has a task that is after a node that the next one owns. As long as nobody
 interferes with the members, a knot stands, and one of them is told to yield before each has had two turns.
 */
module Knots {
  import opened Names
  import opened Reservation
  import opened Patrol
  import opened Fleet
  import opened Traffic
  import opened Invariants
  import opened Runs
  import opened Histories
  import opened Submissions
  import Priorities
  import Ring

  // ---------------------------------------------------------------- events that do not concern a robot

  /** Of what `l` says about `m`, nothing is lost in `k`: its nodes, its wait, and its priority on record. */
  ghost predicate Keeps(l: Ledger, k: Ledger, m: Name) {
    && (forall node | Owns(l, m, node) :: Owns(k, m, node))
    && (m in l.waitFor ==> m in k.waitFor && k.waitFor[m] == l.waitFor[m])
    && (m in l.prio <==> m in k.prio) && PrioOf(l.prio, m) == PrioOf(k.prio, m)
  }

  lemma RequestKeeps(l: Ledger, r: Name, from: int, to: int, p: int, m: Name)
    requires r != m
    ensures Keeps(l, Requested(l, r, from, to, p), m)
  {
    hide Victim;
  }

  lemma ReleaseKeeps(l: Ledger, r: Name, node: int, m: Name)
    requires r != m
    ensures Keeps(l, Released(l, r, node), m)
  {}

  lemma {:induction false} ReleaseAllKeeps(l: Ledger, r: Name, nodes: seq<int>, m: Name)
    requires r != m
    ensures Keeps(l, ReleasedAll(l, r, nodes), m)
    decreases |nodes|
  {
    if nodes != [] {
      ReleaseAllKeeps(Released(l, r, nodes[0]), r, nodes[1..], m);
    }
  }

  lemma {:induction false} ReleaseTasksKeeps(l: Ledger, q: seq<Task>, r: Name, m: Name)
    requires r != m
    ensures Keeps(l, ReleasedTasks(l, q, r), m)
    decreases |q|
  {
    if q != [] {
      var t := q[0];
      var l1 := if t.robot == r && 0 < t.idx <= |t.path| then Released(l, r, t.Here()) else l;
      var l2 := if t.robot == r && t.idx < |t.path| then Released(l1, r, t.Target()) else l1;
      ReleaseTasksKeeps(l2, q[1..], r, m);
    }
  }

  lemma DropKeepsOthers(l: Ledger, r: Name, m: Name)
    requires r != m
    ensures Keeps(l, Dropped(l, r), m)
  {}

  /** The robot's reservations, wait, record, task and priority are what they were. */
  ghost predicate Untouched(s: System, n: System, m: Name) {
    && Keeps(s.ledger, n.ledger, m)
    && (forall t | t in s.queue && t.robot == m :: t in n.queue && PriorityOf(n, t) == PriorityOf(s, t))
  }

  /** The event sets something for the robot, gives it a task, or is its task's turn. */
  ghost predicate Concerns(cfg: Config, s: System, e: Event, m: Name)
    requires cfg.Valid() && Enabled(cfg, s, e)
  {
    match e
    case SetBattery(r, _) => r == m
    case SetMode(r, _) => r == m
    case Submit(goal, armActions, forced, winner, plan) =>
      Judged(cfg, s, goal, armActions, forced, winner, plan) == Accepted && Chosen(forced, winner) == m
    case StartPatrol(r) => r == m
    case Poll(_) => s.queue[0].robot == m
    case _ => false
  }

  lemma CancelUntouched(s: System, r: Name, m: Name)
    requires r != m
    ensures Untouched(s, Cancelled(s, r), m)
  {
    ReleaseTasksKeeps(s.ledger, s.queue, r, m);
    WithoutOthers(s.queue, r);
    hide ReleasedTasks, Without, Keeps;
  }

  lemma LaunchUntouched(s: System, t: Task, m: Name)
    requires t.robot != m && |t.path| > 0
    ensures Untouched(s, Launched(s, t), m)
  {
    RequestKeeps(s.ledger, t.robot, t.path[0], t.path[0], PriorityOf(s, t), m);
    hide Requested, Keeps;
  }

  lemma UntouchedTwice(s: System, t: System, n: System, m: Name)
    requires Untouched(s, t, m) && Untouched(t, n, m)
    ensures Untouched(s, n, m)
  {
    hide PriorityOf;
  }

  lemma ModeUntouched(cfg: Config, s: System, r: Name, mode: Mode, m: Name)
    requires cfg.Valid() && r != m
    ensures Untouched(s, ModeSet(cfg, s, r, mode), m)
  {
    var c := if mode == Charging then s else Cancelled(s, r);
    var l := if mode == Charging then s.ledger else Dropped(c.ledger, r);
    var d := c.(ledger := l, modes := c.modes[r := mode]);
    CancelUntouched(s, r, m);
    DropKeepsOthers(c.ledger, r, m);
    assert Untouched(s, d, m) by { hide Cancelled; }
    if mode == Stopped && r in d.robots {
      var node := StartOf(cfg, d, r);
      RequestKeeps(d.ledger, r, node, node, Priorities.STOP_PRIO, m);
      hide Requested, Keeps, Cancelled, Dropped;
    }
  }

  lemma PollUntouched(cfg: Config, s: System, plan: seq<int>, m: Name)
    requires cfg.Valid() && Inv(cfg, s) && Enabled(cfg, s, Poll(plan)) && s.queue[0].robot != m
    ensures Untouched(s, Polled(cfg, s, plan), m)
  {
    hide Inv, Progress, Resolved, PlanFits, Requested, Released, ReleasedAll, Verdict, Keeps;
    HeadPollable(cfg, s);
    PolledQueue(cfg, s, plan);
    match HeadFate(cfg, s)
    case Ends(_, nodes) => ReleaseAllKeeps(s.ledger, s.queue[0].robot, nodes, m);
    case Goes(t) =>
      if Requests(cfg, s) {
        AskKeepsOthers(s, t, m);
      } else {
        SameKeeps(s.ledger, m);
      }
  }

  lemma SameKeeps(l: Ledger, m: Name)
    ensures Keeps(l, l, m)
  {}

  lemma AskKeepsOthers(s: System, t: Task, m: Name)
    requires 0 < t.idx < |t.path| && t.robot != m
    ensures Keeps(s.ledger, AskedLedger(s, t), m)
  {
    var l := Requested(s.ledger, t.robot, t.Here(), t.Target(), PriorityOf(s, t));
    RequestKeeps(s.ledger, t.robot, t.Here(), t.Target(), PriorityOf(s, t), m);
    ReleaseKeeps(l, t.robot, t.Here(), m);
    hide Requested, Released, Answered;
  }

  lemma SubmitUntouched(cfg: Config, s: System, e: Event, m: Name)
    requires cfg.Valid() && Enabled(cfg, s, e) && e.Submit? && !Concerns(cfg, s, e, m)
    ensures Untouched(s, Apply(cfg, s, e), m)
  {
    hide Apply, Enabled, SubmitFits, Cancelled, Launched, StartOf, Untouched;
    SubmitEnabled(cfg, s, e);
    SameUntouched(s, m);
    if Judged(cfg, s, e.goal, e.armActions, e.forced, e.winner, e.plan) == Accepted {
      var r: Name := Chosen(e.forced, e.winner);
      var c := if s.robots[r].busy then Cancelled(s, r) else s;
      var t := NewTask(r, TaskPath(StartOf(cfg, s, r), e.goal, e.plan), false, s.created + 1);
      CancelUntouched(s, r, m);
      LaunchUntouched(c, t, m);
      UntouchedTwice(s, c, Launched(c, t), m);
    }
  }

  lemma SameUntouched(s: System, m: Name)
    ensures Untouched(s, s, m)
  {}

  /** An event that does not concern a robot leaves its reservations, its wait, its task and its priority alone. */
  lemma LeavesAlone(cfg: Config, s: System, e: Event, m: Name)
    requires cfg.Valid() && Inv(cfg, s) && Enabled(cfg, s, e) && !Concerns(cfg, s, e, m)
    ensures Untouched(s, Apply(cfg, s, e), m)
  {
    hide Inv, Cancelled, Launched, ModeSet, Polled, SubmitFits, PlanFits;
    match e
    case Observe(_, _, _) => SameKeeps(s.ledger, m);
    case SetBattery(_, _) => SameKeeps(s.ledger, m);
    case SetMode(r, mode) => ModeUntouched(cfg, s, r, mode, m);
    case Submit(_, _, _, _, _) => SubmitUntouched(cfg, s, e, m);
    case StartPatrol(r) =>
      LaunchUntouched(s, NewTask(r, Lap(cfg.graph, cfg.route, s.robots[r].x, s.robots[r].y, -1), true,
                                 s.created + 1), m);
    case Begin => SameKeeps(s.ledger, m);
    case Poll(plan) => PollUntouched(cfg, s, plan, m);
    case End => SameKeeps(s.ledger, m);
  }

  // ---------------------------------------------------------------- knots

  /** The task stands, is after `to`, and has this priority. */
  predicate Seeks(s: System, t: Task, to: int, p: int) {
    !t.moving && 0 < t.idx < |t.path| && t.Here() != t.Target() && t.Target() == to && PriorityOf(s, t) == p
  }

  predicate IsAfter(s: System, m: Name, to: int, p: int) {
    exists i :: 0 <= i < |s.queue| && s.queue[i].robot == m && Seeks(s, s.queue[i], to, p)
  }

  /** The member owns its node of the circle, and has a task that is after the next one's. */
  predicate Tied(s: System, c: Ring.Circle, i: nat)
    requires |c.robots| == |c.nodes| == |c.prio| && i < |c.robots|
  {
    Owns(s.ledger, c.robots[i], c.nodes[i]) && IsAfter(s, c.robots[i], c.nodes[c.Next(i)], c.prio[i])
  }

  ghost predicate Knotted(s: System, c: Ring.Circle) {
    c.Valid() && forall i {:trigger Tied(s, c, i)} | 0 <= i < |c.robots| :: Tied(s, c, i)
  }

  /** The member waits for the next one, with its present priority on record. */
  predicate Asked(s: System, c: Ring.Circle, i: nat)
    requires |c.robots| == |c.prio| && i < |c.robots|
  {
    c.robots[i] in s.ledger.waitFor && Ring.OnRing(c, s.ledger.waitFor, s.ledger.prio, i)
  }

  ghost predicate TurnOf(cfg: Config, s: System, e: Event, m: Name)
    requires cfg.Valid() && Enabled(cfg, s, e)
  {
    e.Poll? && s.queue[0].robot == m
  }

  /** In this turn the task is told to wait, if it asks at all, and keeps its path. */
  ghost predicate Waits(cfg: Config, s: System, plan: seq<int>)
    requires cfg.Valid() && |s.queue| > 0 && Pollable(cfg, s, s.queue[0])
  {
    Requests(cfg, s) ==>
      var t := HeadFate(cfg, s).task;
      Answered(s, t) != Deadlock && !Detours(cfg, t, Answered(s, t), StoppedAhead(s, t), plan)
  }

  /** A member is told to yield. */
  ghost predicate YieldsNow(cfg: Config, s: System, e: Event, c: Ring.Circle)
    requires cfg.Valid() && Enabled(cfg, s, e)
  {
    && e.Poll? && s.queue[0].robot in c.robots && Requests(cfg, s)
    && Answered(s, HeadFate(cfg, s).task) == Deadlock
  }

  /** A member's mode, battery or task is set from outside, or it loses patience and goes around. */
  ghost predicate Disturbs(cfg: Config, s: System, e: Event, c: Ring.Circle)
    requires cfg.Valid() && Enabled(cfg, s, e)
  {
    if e.Poll? then
      && s.queue[0].robot in c.robots && Requests(cfg, s)
      && var t := HeadFate(cfg, s).task;
         Answered(s, t) == Wait && Detours(cfg, t, Wait, StoppedAhead(s, t), e.plan)
    else exists m :: m in c.robots && Concerns(cfg, s, e, m)
  }

  lemma StaysAfter(s: System, n: System, m: Name, to: int, p: int)
    requires Untouched(s, n, m) && IsAfter(s, m, to, p)
    ensures IsAfter(n, m, to, p)
  {
    hide PriorityOf, Keeps;
    var k :| 0 <= k < |s.queue| && s.queue[k].robot == m && Seeks(s, s.queue[k], to, p);
    assert s.queue[k] in s.queue;
    var j :| 0 <= j < |n.queue| && n.queue[j] == s.queue[k];
    assert Seeks(n, n.queue[j], to, p);
  }

  lemma UntouchedMember(s: System, n: System, c: Ring.Circle, i: nat)
    requires c.Valid() && i < |c.robots| && Tied(s, c, i) && Untouched(s, n, c.robots[i])
    ensures Tied(n, c, i)
    ensures Asked(s, c, i) ==> Asked(n, c, i)
  {
    hide PriorityOf, IsAfter;
    StaysAfter(s, n, c.robots[i], c.nodes[c.Next(i)], c.prio[i]);
  }

  lemma MembersDiffer(c: Ring.Circle, i: nat, j: nat)
    requires c.Valid() && i < |c.robots| && j < |c.robots| && i != j
    ensures c.robots[i] != c.robots[j]
  {
    assert i < j || j < i;
  }

  /** In its turn a member asks for the next one's node, with the priority it has. */
  lemma MemberAsks(cfg: Config, s: System, to: int, p: int)
    requires cfg.Valid() && Inv(cfg, s) && 0 < s.left && IsAfter(s, s.queue[0].robot, to, p)
    ensures Pollable(cfg, s, s.queue[0]) && Requests(cfg, s) && HeadFate(cfg, s).Goes?
    ensures var t := HeadFate(cfg, s).task;
            t.robot == s.queue[0].robot && 0 < t.idx < |t.path| && Seeks(s, t, to, p)
  {
    HeadPollable(cfg, s);
    var k :| 0 <= k < |s.queue| && s.queue[k].robot == s.queue[0].robot && Seeks(s, s.queue[k], to, p);
    assert Distinct(s.queue) && k == 0;
    hide Inv, Lap;
  }

  /** Told to wait, it stays after the node, and the tables say so. */
  lemma MemberWaits(s: System, t: Task, to: int, p: int)
    requires Seeks(s, t, to, p) && to in s.ledger.owner && s.ledger.owner[to] != t.robot && Answered(s, t) != Deadlock
    ensures Answered(s, t) == Wait && AskedLedger(s, t).owner == s.ledger.owner
    ensures AskedLedger(s, t).waitFor == s.ledger.waitFor[t.robot := s.ledger.owner[to]]
    ensures AskedLedger(s, t).prio == s.ledger.prio[t.robot := p]
  {
    hide Victim;
  }

  lemma WaitingSeeks(cfg: Config, s: System, n: System, t: Task, stopped: bool, plan: seq<int>, to: int, p: int)
    requires Seeks(s, t, to, p) && !Detours(cfg, t, Wait, stopped, plan) && n.modes == s.modes && n.robots == s.robots
    ensures Seeks(n, Resolved(cfg, t, Wait, stopped, plan), to, p)
    ensures Resolved(cfg, t, Wait, stopped, plan).robot == t.robot
  {
    hide Detours;
  }

  /** The turn of a member that is not told to yield: it waits for the next one, with its present priority on record. */
  lemma MemberTurn(cfg: Config, s: System, plan: seq<int>, c: Ring.Circle, i: nat)
    requires cfg.Valid() && Inv(cfg, s) && Enabled(cfg, s, Poll(plan)) && Knotted(s, c)
    requires i < |c.robots| && s.queue[0].robot == c.robots[i]
    requires Waits(cfg, s, plan)
    ensures var n := Polled(cfg, s, plan);
            Tied(n, c, i) && Asked(n, c, i)
  {
    hide Inv, PlanFits, Progress, Pollable, Seeks, IsAfter, Resolved, Detours, Answered, AskedLedger, StoppedAhead;
    hide Requests, HeadFate;
    var r, to, p := c.robots[i], c.nodes[c.Next(i)], c.prio[i];
    assert Tied(s, c, i) && Tied(s, c, c.Next(i));
    MembersDiffer(c, i, c.Next(i));
    hide Knotted;
    MemberAsks(cfg, s, to, p);
    var t, n := HeadFate(cfg, s).task, Polled(cfg, s, plan);
    MemberWaits(s, t, to, p);
    WaitingSeeks(cfg, s, n, t, StoppedAhead(s, t), plan, to, p);
    var u := n.queue[|n.queue| - 1];
    assert u.robot == r && Seeks(n, u, to, p);
    assert IsAfter(n, r, to, p) by { StandsLast(n, to, p); }
  }

  lemma StandsLast(n: System, to: int, p: int)
    requires |n.queue| > 0 && Seeks(n, n.queue[|n.queue| - 1], to, p)
    ensures IsAfter(n, n.queue[|n.queue| - 1].robot, to, p)
  {}

  /** Unless a member is told to yield or is disturbed, the knot stands, and who has asked keeps waiting. */
  lemma KnotStep(cfg: Config, s: System, e: Event, c: Ring.Circle, i: nat)
    requires cfg.Valid() && Inv(cfg, s) && Enabled(cfg, s, e) && Knotted(s, c) && i < |c.robots|
    requires !YieldsNow(cfg, s, e, c) && !Disturbs(cfg, s, e, c)
    ensures Tied(Apply(cfg, s, e), c, i)
    ensures Asked(s, c, i) || TurnOf(cfg, s, e, c.robots[i]) ==> Asked(Apply(cfg, s, e), c, i)
  {
    hide Inv, PlanFits, SubmitFits, Polled, ModeSet, Cancelled, Launched, Requests, Answered, Untouched, Tied, IsAfter;
    assert Tied(s, c, i) && c.robots[i] in c.robots;
    if TurnOf(cfg, s, e, c.robots[i]) {
      MemberTurn(cfg, s, e.plan, c, i);
    } else {
      if e.StartPatrol? {
        HasOne(s, c, i);
      }
      LeavesAlone(cfg, s, e, c.robots[i]);
      UntouchedMember(s, Apply(cfg, s, e), c, i);
    }
  }

  lemma HasOne(s: System, c: Ring.Circle, i: nat)
    requires c.Valid() && i < |c.robots| && Tied(s, c, i)
    ensures HasTask(s.queue, c.robots[i])
  {}

  // ---------------------------------------------------------------- runs

  ghost predicate HasTurn(cfg: Config, s: System, es: seq<Event>, m: Name)
    requires cfg.Valid() && Legal(cfg, s, es)
    decreases |es|
  {
    es != [] && (TurnOf(cfg, s, es[0], m) || HasTurn(cfg, Apply(cfg, s, es[0]), es[1..], m))
  }

  ghost predicate Undisturbed(cfg: Config, s: System, es: seq<Event>, c: Ring.Circle)
    requires cfg.Valid() && Legal(cfg, s, es)
    decreases |es|
  {
    es == [] || (!Disturbs(cfg, s, es[0], c) && Undisturbed(cfg, Apply(cfg, s, es[0]), es[1..], c))
  }

  ghost predicate YieldsDuring(cfg: Config, s: System, es: seq<Event>, c: Ring.Circle)
    requires cfg.Valid() && Legal(cfg, s, es)
    decreases |es|
  {
    es != [] && (YieldsNow(cfg, s, es[0], c) || YieldsDuring(cfg, Apply(cfg, s, es[0]), es[1..], c))
  }

  /** As long as nobody yields the knot stands, and every member that has had a turn waits for the next one. */
  lemma {:induction false} KnotStands(cfg: Config, s: System, es: seq<Event>, c: Ring.Circle)
    requires cfg.Valid() && Inv(cfg, s) && Legal(cfg, s, es) && Knotted(s, c)
    requires Undisturbed(cfg, s, es, c) && !YieldsDuring(cfg, s, es, c)
    ensures Inv(cfg, Run(cfg, s, es)) && Knotted(Run(cfg, s, es), c)
    ensures forall i {:trigger Asked(Run(cfg, s, es), c, i)} | 0 <= i < |c.robots| ::
              Asked(s, c, i) || HasTurn(cfg, s, es, c.robots[i]) ==> Asked(Run(cfg, s, es), c, i)
    decreases |es|
  {
    hide Inv, Enabled, Apply, YieldsNow, Disturbs, Tied, Asked, TurnOf, Config.Valid;
    if es != [] {
      var n := Apply(cfg, s, es[0]);
      StepKeeps(cfg, s, es[0]);
      forall i | 0 <= i < |c.robots|
        ensures Tied(n, c, i) && (Asked(s, c, i) || TurnOf(cfg, s, es[0], c.robots[i]) ==> Asked(n, c, i))
      {
        KnotStep(cfg, s, es[0], c, i);
      }
      KnotStands(cfg, n, es[1..], c);
    }
  }

  /** Once every member waits, the lowest is told to yield in its turn. */
  lemma LowestIsTold(cfg: Config, s: System, e: Event, c: Ring.Circle, v: nat)
    requires cfg.Valid() && Inv(cfg, s) && Enabled(cfg, s, e) && Knotted(s, c) && c.Lowest(v)
    requires forall i | 0 <= i < |c.robots| :: Asked(s, c, i)
    requires TurnOf(cfg, s, e, c.robots[v])
    ensures YieldsNow(cfg, s, e, c)
  {
    hide Inv, PlanFits, Pollable, Progress, IsAfter, PriorityOf;
    var to, p := c.nodes[c.Next(v)], c.prio[v];
    assert Tied(s, c, v);
    MemberAsks(cfg, s, to, p);
    KnotIsRing(s, c);
    Ring.LowestYields(c, s.ledger, v);
    Ring.NextOwned(c, s.ledger, v);
    hide Victim, Knotted, Ring.Intact, Requests;
  }

  lemma KnotIsRing(s: System, c: Ring.Circle)
    requires Knotted(s, c) && forall i | 0 <= i < |c.robots| :: Asked(s, c, i)
    ensures Ring.Intact(c, s.ledger) && forall i | 0 <= i < |c.robots| :: c.robots[i] in s.ledger.waitFor
  {
    hide IsAfter;
    forall i | 0 <= i < |c.robots|
      ensures Owns(s.ledger, c.robots[i], c.nodes[i]) && c.robots[i] in s.ledger.waitFor
      ensures Ring.OnRing(c, s.ledger.waitFor, s.ledger.prio, i)
    {
      assert Tied(s, c, i) && Asked(s, c, i);
    }
  }

  /** So it happens in every undisturbed run in which the lowest has a turn. */
  lemma {:induction false} LowestYieldsDuring(cfg: Config, s: System, es: seq<Event>, c: Ring.Circle, v: nat)
    requires cfg.Valid() && Inv(cfg, s) && Legal(cfg, s, es) && Knotted(s, c) && c.Lowest(v)
    requires forall i | 0 <= i < |c.robots| :: Asked(s, c, i)
    requires Undisturbed(cfg, s, es, c) && HasTurn(cfg, s, es, c.robots[v])
    ensures YieldsDuring(cfg, s, es, c)
    decreases |es|
  {
    hide Inv, Enabled, Apply, YieldsNow, Disturbs, Tied, Asked, TurnOf, Config.Valid;
    if TurnOf(cfg, s, es[0], c.robots[v]) {
      LowestIsTold(cfg, s, es[0], c, v);
    } else if !YieldsNow(cfg, s, es[0], c) {
      var n := Apply(cfg, s, es[0]);
      StepKeeps(cfg, s, es[0]);
      forall i | 0 <= i < |c.robots| ensures Tied(n, c, i) && Asked(n, c, i) {
        KnotStep(cfg, s, es[0], c, i);
      }
      LowestYieldsDuring(cfg, n, es[1..], c, v);
    }
  }

  /**
   A knot resolves: in every legal run in which nobody disturbs its members, one of them is told to yield before
   each of them has had two turns, whatever the other robots, users and planners do in the meantime.
   */
  lemma KnotResolves(cfg: Config, s: System, first: seq<Event>, second: seq<Event>, c: Ring.Circle)
    requires cfg.Valid() && Inv(cfg, s) && Knotted(s, c)
    requires Legal(cfg, s, first) && Legal(cfg, Run(cfg, s, first), second)
    requires Undisturbed(cfg, s, first, c) && Undisturbed(cfg, Run(cfg, s, first), second, c)
    requires forall i {:trigger c.robots[i]} | 0 <= i < |c.robots| ::
               HasTurn(cfg, s, first, c.robots[i]) && HasTurn(cfg, Run(cfg, s, first), second, c.robots[i])
    ensures YieldsDuring(cfg, s, first, c) || YieldsDuring(cfg, Run(cfg, s, first), second, c)
  {
    hide Inv, Run, Legal, HasTurn, Undisturbed, YieldsDuring, Tied, Asked, Ring.Circle.Lowest, Config.Valid;
    if !YieldsDuring(cfg, s, first, c) {
      KnotStands(cfg, s, first, c);
      var v := Ring.LowestExists(c, |c.robots|);
      LowestYieldsDuring(cfg, Run(cfg, s, first), second, c, v);
    }
  }

  // ---------------------------------------------------------------- ticks

  lemma NextInLine(cfg: Config, s: System, e: Event, i: nat)
    requires cfg.Valid() && Inv(cfg, s) && Enabled(cfg, s, e) && e.Poll? && 0 < i < s.left
    ensures var n := Apply(cfg, s, e);
            n.left == s.left - 1 && i - 1 < |n.queue| && n.queue[i - 1] == s.queue[i]
  {
    hide Inv, PlanFits, Progress, Resolved, Answered;
    PolledQueue(cfg, s, e.plan);
  }

  /** The polls of a tick reach every task that is still to be polled. */
  lemma {:induction false} PollsReach(cfg: Config, s: System, es: seq<Event>, i: nat)
    requires cfg.Valid() && Inv(cfg, s) && Legal(cfg, s, es) && forall e | e in es :: e.Poll?
    requires i < |es| && i < s.left <= |s.queue|
    ensures HasTurn(cfg, s, es, s.queue[i].robot)
    decreases |es|
  {
    assert es[0].Poll? && forall e | e in es[1..] :: e in es;
    if i > 0 {
      NextInLine(cfg, s, es[0], i);
      StepKeeps(cfg, s, es[0]);
      TableSound(cfg, Apply(cfg, s, es[0]));
      hide Inv, Enabled, Apply, Config.Valid;
      PollsReach(cfg, Apply(cfg, s, es[0]), es[1..], i - 1);
    }
  }

  /** A tick has just begun: every task is to be polled. */
  predicate TickBegun(s: System) {
    s.sweeping && s.left == |s.queue|
  }

  lemma TickReachesMember(cfg: Config, s: System, es: seq<Event>, c: Ring.Circle, i: nat)
    requires cfg.Valid() && Inv(cfg, s) && Legal(cfg, s, es) && TickBegun(s) && Knotted(s, c) && i < |c.robots|
    requires |es| == s.left && forall e | e in es :: e.Poll?
    ensures HasTurn(cfg, s, es, c.robots[i])
  {
    hide Inv, Legal, HasTurn, Seeks, Config.Valid;
    assert Tied(s, c, i);
    var k :| 0 <= k < |s.queue| && s.queue[k].robot == c.robots[i]
             && Seeks(s, s.queue[k], c.nodes[c.Next(i)], c.prio[i]);
    PollsReach(cfg, s, es, k);
  }

  /**
   In terms of ticks: if a knot stands when a tick begins, and nobody disturbs its members, one of them is told to
   yield by the end of the next tick.
   */
  lemma KnotResolvesInTwoTicks(cfg: Config, s: System, polls: seq<Event>, between: seq<Event>, more: seq<Event>,
                               c: Ring.Circle)
    requires cfg.Valid() && Inv(cfg, s) && Knotted(s, c) && TickBegun(s) && Legal(cfg, s, polls) && |polls| == s.left
    requires forall e | e in polls + more :: e.Poll?
    requires var n := Run(cfg, s, polls);
             Legal(cfg, n, between) && TickBegun(Run(cfg, n, between)) && Legal(cfg, Run(cfg, n, between), more)
             && |more| == Run(cfg, n, between).left
    requires var n := Run(cfg, s, polls);
             Undisturbed(cfg, s, polls, c) && Undisturbed(cfg, n, between, c)
             && Undisturbed(cfg, Run(cfg, n, between), more, c)
    ensures var n := Run(cfg, s, polls);
            YieldsDuring(cfg, s, polls, c) || YieldsDuring(cfg, n, between, c)
            || YieldsDuring(cfg, Run(cfg, n, between), more, c)
  {
    hide Inv, Run, Legal, HasTurn, Undisturbed, YieldsDuring, Tied, Asked, Ring.Circle.Lowest, Config.Valid, TickBegun;
    var n := Run(cfg, s, polls);
    if !YieldsDuring(cfg, s, polls, c) && !YieldsDuring(cfg, n, between, c) {
      forall i | 0 <= i < |c.robots| ensures HasTurn(cfg, s, polls, c.robots[i]) {
        TickReachesMember(cfg, s, polls, c, i);
      }
      KnotStands(cfg, s, polls, c);
      KnotStands(cfg, n, between, c);
      var v := Ring.LowestExists(c, |c.robots|);
      assert v < |c.robots|;
      TickReachesMember(cfg, Run(cfg, n, between), more, c, v);
      LowestYieldsDuring(cfg, Run(cfg, n, between), more, c, v);
    }
  }
}
