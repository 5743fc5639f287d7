/** Deadlock verdicts over whole runs: they are genuine, and the top-priority task is never the one to yield. */
module Deadlocks {
  import opened Names
  import opened Reservation
  import opened Priorities
  import opened Fleet
  import opened Traffic
  import opened Invariants

  /** The wait-for graph in which the verdict about a request of `r` for `node` is reached. */
  function Edges(l: Ledger, r: Name, node: int): map<Name, Name>
    requires node in l.owner
  {
    l.waitFor[r := l.owner[node]]
  }

  /** `m` waits, with a task that stands still, for the very robot that owns the node it asked for. */
  ghost predicate TrulyWaits(s: System, l: Ledger, w: map<Name, Name>, m: Name) {
    && m in w && m in l.asked && Owns(l, w[m], l.asked[m]) && w[m] != m
    && ModeOf(s.modes, m) != Stopped
    && exists i :: 0 <= i < |s.queue| && s.queue[i].robot == m
  }

  /** The poll about to happen makes a request, and the plugin answers DEADLOCK. */
  ghost predicate Yielding(cfg: Config, s: System)
    requires cfg.Valid()
  {
    0 < s.left <= |s.queue| && Pollable(cfg, s, s.queue[0]) && Requests(cfg, s)
    && Answered(s, HeadFate(cfg, s).task) == Deadlock
  }

  /**
   Whenever the fleet gets a DEADLOCK verdict, the wait is circular in fact and not only in the
   tables: every member of the cycle is a robot with a task, not a stopped one, whose successor owns,
   at this moment, the node that the member last asked for.
   */
  lemma DeadlocksAreGenuine(cfg: Config, s: System)
    requires cfg.Valid() && Inv(cfg, s) && Yielding(cfg, s)
    ensures var t := HeadFate(cfg, s).task;
            var l := Requested(s.ledger, t.robot, t.Here(), t.Target(), PriorityOf(s, t));
            var w := Edges(s.ledger, t.robot, t.Target());
            && OnCycle(w, t.robot) && l.owner == s.ledger.owner
            && forall k: nat :: Follow(w, t.robot, k).Some? && TrulyWaits(s, l, w, Follow(w, t.robot, k).value)
  {
    HeadPollable(cfg, s);
    var t := HeadFate(cfg, s).task;
    var l := Requested(s.ledger, t.robot, t.Here(), t.Target(), PriorityOf(s, t));
    var w := Edges(s.ledger, t.robot, t.Target());
    var n: nat :| n > 0 && Follow(w, t.robot, n) == Some(t.robot);
    forall k: nat ensures Follow(w, t.robot, k).Some? && TrulyWaits(s, l, w, Follow(w, t.robot, k).value) {
      CycleGoesOn(w, t.robot, n, k);
      CycleGoesOn(w, t.robot, n, k + 1);
      MemberTrulyWaits(cfg, s, t, l, w, Follow(w, t.robot, k).value);
    }
  }

  lemma MemberTrulyWaits(cfg: Config, s: System, t: Task, l: Ledger, w: map<Name, Name>, m: Name)
    requires cfg.Valid() && Inv(cfg, s) && |s.queue| > 0 && t.robot == s.queue[0].robot && t.idx < |t.path|
    requires t.Target() in s.ledger.owner && s.ledger.owner[t.Target()] != t.robot
    requires w == Edges(s.ledger, t.robot, t.Target()) && m in w && w[m] in w
    requires l.owner == s.ledger.owner && l.asked == s.ledger.asked[t.robot := t.Target()]
    ensures TrulyWaits(s, l, w, m)
  {
    if m == t.robot {
      assert s.queue[0].robot == m;
      assert Registered(s, s.queue[0]);
    } else {
      assert Waiter(s.queue, s.ledger, m) && EndsIfStale(s.queue, s.ledger, m);
      if w[m] == t.robot {
        HeadEdgesGenuine(s.queue, s.ledger, m);
      }
      var i :| 0 <= i < |s.queue| && s.queue[i].robot == m;
      assert Registered(s, s.queue[i]);
    }
  }

  /** An active task of robot `m` has the tier and the age of `t`: only a battery or a name can rank the two. */
  predicate Level(s: System, t: Task, m: Name) {
    exists i :: 0 <= i < |s.queue| && s.queue[i].robot == m && Levels(s.modes, s.queue[i], t)
  }

  predicate Levels(modes: map<Name, Mode>, u: Task, t: Task) {
    TierOf(modes, u) == TierOf(modes, t) && Age(u.startSeq) == Age(t.startSeq)
  }

  /**
   `m` overtakes `t`: it is level with it, and the priority that the plugin has on record for it makes `t`,
   at its current one, give way.
   */
  predicate Overtakes(s: System, t: Task, m: Name) {
    Level(s, t, m) && Yields(s.ledger.prio[t.robot := PriorityOf(s, t)], t.robot, m)
  }

  /** The request closes a cycle on which every other robot overtakes `t`. */
  ghost predicate Overtaken(s: System, t: Task)
    requires 0 < t.idx < |t.path|
  {
    && t.Here() != t.Target() && !Free(s.ledger, t.robot, t.Target())
    && var w := Edges(s.ledger, t.robot, t.Target());
       OnCycle(w, t.robot)
       && forall k: nat :: Follow(w, t.robot, k).Some? && Follow(w, t.robot, k).value != t.robot ==>
            Overtakes(s, t, Follow(w, t.robot, k).value)
  }

  predicate HeadIsTop(s: System) {
    forall i | 0 <= i < |s.queue| :: PriorityOf(s, s.queue[i]) <= PriorityOf(s, s.queue[0])
  }

  /**
   Exactly when the task of highest priority is told to yield: its request closes a cycle on which every other
   robot has a task of the same tier and the same age, and a priority on record, from an earlier request, that
   outranks it. All of this can be read off the tables before the request.
   */
  lemma TopPriorityYieldsIff(cfg: Config, s: System)
    requires cfg.Valid() && Inv(cfg, s) && HeadIsTop(s)
    requires 0 < s.left <= |s.queue| && Pollable(cfg, s, s.queue[0]) && Requests(cfg, s)
    ensures Answered(s, HeadFate(cfg, s).task) == Deadlock <==> Overtaken(s, HeadFate(cfg, s).task)
  {
    HeadPollable(cfg, s);
    var t := HeadFate(cfg, s).task;
    hide Inv, Progress, PriorityOf, Level;
    if Answered(s, t) == Deadlock {
      var r, w := t.robot, Edges(s.ledger, t.robot, t.Target());
      var n: nat :| n > 0 && Follow(w, r, n) == Some(r);
      forall k: nat | Follow(w, r, k).Some? && Follow(w, r, k).value != r
        ensures Overtakes(s, t, Follow(w, r, k).value)
      {
        CycleGoesOn(w, r, n, k);
        RecordsAreLevel(cfg, s, t, Follow(w, r, k).value);
      }
    }
  }

  /** A waiting robot whose record outranks the top task has a task level with it. */
  lemma RecordsAreLevel(cfg: Config, s: System, t: Task, m: Name)
    requires cfg.Valid() && Inv(cfg, s) && HeadIsTop(s) && |s.queue| > 0 && Continues(cfg, s.queue[0], t)
    requires m in s.ledger.waitFor && m != t.robot
    requires PriorityOf(s, t) <= PrioOf(s.ledger.prio, m)
    ensures Level(s, t, m)
  {
    assert Waiter(s.queue, s.ledger, m);
    var i :| 0 <= i < |s.queue| && s.queue[i].robot == m;
    var u := s.queue[i];
    assert NotOverstated(s, u) && Registered(s, u) && Registered(s, s.queue[0]);
    assert PriorityOf(s, u) <= PriorityOf(s, s.queue[0]) == PriorityOf(s, t);
    RecordLevels(PrioOf(s.ledger.prio, m), TierOf(s.modes, u), u.startSeq, BatteryOf(s.robots, u.robot),
                 TierOf(s.modes, t), t.startSeq, BatteryOf(s.robots, t.robot));
    assert Levels(s.modes, u, t);
  }

  /** A record that overstates neither tier nor age, of a task outranked now, outranks only at equal tier and age. */
  lemma RecordLevels(recorded: int, t1: int, s1: int, b1: real, t2: int, s2: int, b2: real)
    requires s1 >= 0 && s2 >= 0 && recorded / AGE_STEP <= Rung(t1, s1)
    requires Priority(t1, s1, b1) <= Priority(t2, s2, b2) <= recorded
    ensures t1 == t2 && Age(s1) == Age(s2)
  {
    RungOfPriority(t1, s1, b1);
    RungOfPriority(t2, s2, b2);
    RungSeparates(t1, s1, t2, s2);
  }

  /** No other active task shares both tier and age with the head task. */
  ghost predicate Unmatched(s: System) {
    forall i | 0 < i < |s.queue| :: !Levels(s.modes, s.queue[i], s.queue[0])
  }

  /** So it is when, of the head task and any other of its tier, one is among the first SEQ_MAX; and only then. */
  lemma UnmatchedIff(cfg: Config, s: System)
    requires cfg.Valid() && Inv(cfg, s) && |s.queue| > 0
    ensures Unmatched(s) <==>
            forall i | 0 < i < |s.queue| && TierOf(s.modes, s.queue[i]) == TierOf(s.modes, s.queue[0]) ::
              s.queue[0].startSeq < SEQ_MAX || s.queue[i].startSeq < SEQ_MAX
    ensures s.created <= SEQ_MAX ==> Unmatched(s)
  {
    assert Registered(s, s.queue[0]);
    forall i | 0 < i < |s.queue|
      ensures s.queue[i].startSeq != s.queue[0].startSeq && 0 < s.queue[i].startSeq <= s.created
    {
      SeqsDiffer(s, 0, i);
      assert Registered(s, s.queue[i]);
    }
  }

  /**
   A task whose priority is the highest among the active tasks, and with which no other of them shares tier and
   age, is never told to yield, although the others are judged by priorities recorded earlier.
   */
  lemma TopPriorityNeverYields(cfg: Config, s: System)
    requires cfg.Valid() && Inv(cfg, s) && HeadIsTop(s) && Unmatched(s)
    requires 0 < s.left <= |s.queue| && Pollable(cfg, s, s.queue[0]) && Requests(cfg, s)
    ensures Answered(s, HeadFate(cfg, s).task) != Deadlock
  {
    TopPriorityYieldsIff(cfg, s);
    HeadPollable(cfg, s);
    var t := HeadFate(cfg, s).task;
    assert Levels(s.modes, s.queue[0], t);
    hide Inv, Progress, Answered, PriorityOf, Overtaken;
    if Overtaken(s, t) {
      OvertakenByOwner(s, t);
    }
  }

  lemma OvertakenByOwner(s: System, t: Task)
    requires 0 < t.idx < |t.path| && Overtaken(s, t)
    ensures t.Target() in s.ledger.owner && s.ledger.owner[t.Target()] != t.robot
    ensures Level(s, t, s.ledger.owner[t.Target()])
  {
    var b := s.ledger.owner[t.Target()];
    assert Follow(Edges(s.ledger, t.robot, t.Target()), t.robot, 0) == Some(t.robot);
    assert Follow(Edges(s.ledger, t.robot, t.Target()), t.robot, 1) == Some(b);
    assert Overtakes(s, t, b);
  }

  /** A waiting robot has a task, stands still, and is not stopped; so a stopped robot is on no cycle at all. */
  lemma WaitersAreTasks(cfg: Config, s: System, x: Name)
    requires cfg.Valid() && Inv(cfg, s) && x in s.ledger.waitFor
    ensures exists i :: 0 <= i < |s.queue| && s.queue[i].robot == x && MayWait(s.queue[i])
    ensures ModeOf(s.modes, x) != Stopped && s.ledger.waitFor[x] != x
  {
    assert Waiter(s.queue, s.ledger, x);
    var i :| 0 <= i < |s.queue| && s.queue[i].robot == x;
    assert Registered(s, s.queue[i]) && MayWait(s.queue[i]);
  }

  /**
   A node held by a stopped robot is an obstacle at once: the answer is WAIT, never DEADLOCK, the planner is
   asked in the same turn, and if any route to the goal keeps clear of the node, so does the new path.
   */
  lemma StoppedRobotsAreAvoided(cfg: Config, s: System, plan: seq<int>)
    requires cfg.Valid() && Inv(cfg, s) && Enabled(cfg, s, Poll(plan)) && Requests(cfg, s)
    requires StoppedAhead(s, HeadFate(cfg, s).task)
    ensures var t := HeadFate(cfg, s).task;
            var u := Resolved(cfg, t, Answered(s, t), true, plan);
            && Answered(s, t) == Wait && Searches(cfg, t, Wait, true)
            && Polled(cfg, s, plan).queue == s.queue[1..] + [u]
            && ((exists p :: |p| >= 2 && cfg.graph.Route(t.Here(), t.Goal(), t.Target(), p) && t.Here() != t.Goal()) ==>
                  u.idx == 1 && cfg.graph.Route(t.Here(), t.Goal(), t.Target(), u.path))
  {
    HeadPollable(cfg, s);
    var t := HeadFate(cfg, s).task;
    StoppedAnswer(cfg, s, t);
    hide Inv, Progress, Answered;
    if p :| |p| >= 2 && cfg.graph.Route(t.Here(), t.Goal(), t.Target(), p) && t.Here() != t.Goal() {
      assert cfg.graph.Shortest(t.Here(), t.Goal(), t.Target(), plan);
      assert cfg.graph.Has(p[0]) && cfg.graph.Has(p[|p| - 1]);
      assert plan != [] && plan[0] != plan[|plan| - 1];
    }
  }

  lemma StoppedAnswer(cfg: Config, s: System, t: Task)
    requires cfg.Valid() && Inv(cfg, s) && |s.queue| > 0 && Continues(cfg, s.queue[0], t) && StoppedAhead(s, t)
    ensures Answered(s, t) == Wait
  {
    var b, r := s.ledger.owner[t.Target()], t.robot;
    assert Registered(s, s.queue[0]);
    if b in s.ledger.waitFor {
      WaitersAreTasks(cfg, s, b);
    }
    var w := Edges(s.ledger, r, t.Target());
    if n: nat :| n > 0 && Follow(w, r, n) == Some(r) {
      CycleGoesOn(w, r, n, 1);
    }
  }
}
