/** What holds between any two events of the fleet node, whatever robots, users and planners do. */
module Invariants {
  import opened Names
  import opened Reservation
  import opened Priorities
  import opened Patrol
  import opened Dispatch
  import opened Fleet
  import opened Traffic

  /** The task list in the program's own order: the tasks polled in this tick, then the others. */
  function Listed(q: seq<Task>, left: nat): seq<Task>
    requires left <= |q|
  {
    q[left..] + q[..left]
  }

  predicate Oldest(q: seq<Task>) {
    forall i, j | 0 <= i < j < |q| :: q[i].startSeq < q[j].startSeq
  }

  predicate Registered(s: System, t: Task) {
    && t.robot in s.robots && s.robots[t.robot].busy
    && ModeOf(s.modes, t.robot) != Stopped
    && 0 < t.startSeq <= s.created
  }

  ghost predicate Booked(s: System, r: Name)
    requires r in s.robots
  {
    s.robots[r].name == r && (s.robots[r].busy ==> HasTask(s.queue, r))
  }

  /** A robot is busy exactly when it has a task; stopped robots have none; the list is oldest first. */
  ghost predicate Tabled(s: System) {
    && s.left <= |s.queue| && (!s.sweeping ==> s.left == 0)
    && (forall i | 0 <= i < |s.queue| :: Registered(s, s.queue[i]))
    && (forall r {:trigger Booked(s, r)} | r in s.robots :: Booked(s, r))
    && Oldest(Listed(s.queue, s.left))
  }

  /** No two active tasks have the same number. */
  lemma SeqsDiffer(s: System, i: nat, j: nat)
    requires Tabled(s) && i < |s.queue| && j < |s.queue| && i != j
    ensures s.queue[i].startSeq != s.queue[j].startSeq
  {
    var q, k := s.queue, s.left;
    var a := Listed(q, k);
    var pi := if i < k then i + |q| - k else i - k;
    var pj := if j < k then j + |q| - k else j - k;
    assert a[pi] == q[i] && a[pj] == q[j];
  }

  /** A path follows lanes, except that a robot already nearest to its goal gets the goal twice. */
  ghost predicate Roadworthy(cfg: Config, t: Task)
    requires cfg.Valid()
  {
    && 0 < t.idx < |t.path| && cfg.graph.InRange(t.path)
    && (cfg.graph.Walk(t.path) || (!t.patrol && t.path == [t.path[0], t.path[0]]))
    && (t.patrol ==> |cfg.route| >= 2 && t.Goal() in cfg.route)
  }

  predicate Bounded(t: Task) {
    t.reroutes <= MAX_REROUTES && t.noMove <= STUCK_TICKS && t.waitTicks < REROUTE_WAIT_TICKS
  }

  ghost predicate TasksSound(cfg: Config, q: seq<Task>)
    requires cfg.Valid()
  {
    forall i | 0 <= i < |q| :: Roadworthy(cfg, q[i]) && Bounded(q[i])
  }

  function RungOf(modes: map<Name, Mode>, t: Task): int {
    Rung(TierOf(modes, t), t.startSeq)
  }

  /** The priority recorded for a waiting robot never overstates its tier and age of today. */
  predicate NotOverstated(s: System, t: Task) {
    t.robot in s.ledger.waitFor ==> t.robot in s.ledger.prio && s.ledger.prio[t.robot] / AGE_STEP <= RungOf(s.modes, t)
  }

  ghost predicate PrioritiesHonest(s: System) {
    forall i | 0 <= i < |s.queue| :: NotOverstated(s, s.queue[i])
  }

  ghost predicate Inv(cfg: Config, s: System)
    requires cfg.Valid()
  {
    Tabled(s) && TasksSound(cfg, s.queue) && Orderly(s.queue, s.ledger) && PrioritiesHonest(s)
  }

  // ---------------------------------------------------------------- cancelling

  lemma {:induction false} WithoutNone(l: Ledger, q: seq<Task>, r: Name)
    requires !HasTask(q, r)
    ensures Without(q, r) == q && ReleasedTasks(l, q, r) == l
    decreases |q|
  {
    if q != [] {
      assert q[0].robot != r;
      WithoutNone(l, q[1..], r);
    }
  }

  lemma {:induction false} WithoutOne(l: Ledger, q: seq<Task>, r: Name, i: nat)
    requires Distinct(q) && i < |q| && q[i].robot == r && 0 < q[i].idx < |q[i].path|
    ensures Without(q, r) == Removed(q, i)
    ensures ReleasedTasks(l, q, r) == Released(Released(l, r, q[i].Here()), r, q[i].Target())
    decreases |q|
  {
    if i == 0 {
      assert forall j | 0 <= j < |q[1..]| :: q[1..][j] == q[j + 1];
      WithoutNone(Released(Released(l, r, q[i].Here()), r, q[i].Target()), q[1..], r);
    } else {
      WithoutOne(l, q[1..], r, i - 1);
    }
  }

  lemma CancelFacts(s: System, r: Name, i: nat)
    requires Distinct(s.queue) && i < |s.queue| && s.queue[i].robot == r && 0 < s.queue[i].idx < |s.queue[i].path|
    ensures Cancelled(s, r).queue == Removed(s.queue, i)
    ensures Vacates(s.ledger, Cancelled(s, r).ledger, r) && Cancelled(s, r).ledger.prio == s.ledger.prio
  {
    WithoutOne(s.ledger, s.queue, r, i);
  }

  lemma RemovedSound(cfg: Config, q: seq<Task>, k: nat)
    requires cfg.Valid() && TasksSound(cfg, q) && k < |q|
    ensures TasksSound(cfg, Removed(q, k))
  {
    var p := Removed(q, k);
    forall i | 0 <= i < |p| ensures Roadworthy(cfg, p[i]) && Bounded(p[i]) {
      assert p[i] == q[if i < k then i else i + 1];
    }
  }

  lemma RemovedTabled(s: System, k: nat, t: System)
    requires Tabled(s) && Distinct(s.queue) && k < |s.queue| && s.left == t.left == 0 && !t.sweeping
    requires t.queue == Removed(s.queue, k) && t.robots == SetBusy(s.robots, s.queue[k].robot, false)
    requires t.modes == s.modes && t.created == s.created
    ensures Tabled(t)
  {
    var q, p := s.queue, t.queue;
    assert Listed(q, 0) == q && Listed(p, 0) == p;
    forall i | 0 <= i < |p| ensures p[i] == q[if i < k then i else i + 1] && Registered(t, p[i]) {
      assert Registered(s, p[i]);
    }
    forall r | r in t.robots ensures Booked(t, r) {
      assert Booked(s, r);
      RemovedTasks(q, k, r);
    }
  }

  lemma RemovedHonest(s: System, k: nat, t: System)
    requires PrioritiesHonest(s) && k < |s.queue| && t.queue == Removed(s.queue, k)
    requires t.ledger.waitFor == s.ledger.waitFor - {s.queue[k].robot} && t.ledger.prio == s.ledger.prio
    requires t.modes == s.modes
    ensures PrioritiesHonest(t)
  {
    forall i | 0 <= i < |t.queue| ensures NotOverstated(t, t.queue[i]) {
      assert t.queue[i] == s.queue[if i < k then i else i + 1];
      assert NotOverstated(s, t.queue[i]);
    }
  }

  lemma CancelKeeps(cfg: Config, s: System, r: Name)
    requires cfg.Valid() && Inv(cfg, s) && !s.sweeping
    ensures Inv(cfg, Cancelled(s, r)) && !HasTask(Cancelled(s, r).queue, r) && !Cancelled(s, r).sweeping
  {
    var c := Cancelled(s, r);
    if HasTask(s.queue, r) {
      var i :| 0 <= i < |s.queue| && s.queue[i].robot == r;
      assert Roadworthy(cfg, s.queue[i]);
      CancelFacts(s, r, i);
      RemoveKeeps(s.queue, i, s.ledger, c.ledger);
      RemovedSound(cfg, s.queue, i);
      RemovedTabled(s, i, c);
      RemovedHonest(s, i, c);
    } else {
      WithoutNone(s.ledger, s.queue, r);
      assert r in s.robots ==> Booked(s, r);
      assert c.robots == s.robots;
    }
  }

  // ---------------------------------------------------------------- creating

  lemma LaunchKeeps(cfg: Config, s: System, t: Task)
    requires cfg.Valid() && Inv(cfg, s) && !s.sweeping && !HasTask(s.queue, t.robot)
    requires t.robot in s.robots && ModeOf(s.modes, t.robot) != Stopped
    requires Roadworthy(cfg, t) && t == NewTask(t.robot, t.path, t.patrol, s.created + 1)
    ensures Inv(cfg, Launched(s, t))
  {
    var u := Launched(s, t);
    assert t.startSeq == NewTask(t.robot, t.path, t.patrol, s.created + 1).startSeq;
    ClaimKeeps(s.queue, s.ledger, t.robot, t.path[0], PriorityOf(s, t));
    AppendKeeps(s.queue, u.ledger, t);
    LaunchTabled(s, t);
    LaunchHonest(s, t);
  }

  lemma LaunchTabled(s: System, t: Task)
    requires Tabled(s) && !s.sweeping && t.robot in s.robots && ModeOf(s.modes, t.robot) != Stopped
    requires t.startSeq == s.created + 1 && |t.path| > 0
    ensures Tabled(Launched(s, t))
  {
    var u := Launched(s, t);
    assert Listed(s.queue, 0) == s.queue && Listed(u.queue, 0) == u.queue;
    forall i | 0 <= i < |u.queue| ensures Registered(u, u.queue[i]) {
      assert i < |s.queue| ==> Registered(s, s.queue[i]);
    }
    forall r | r in u.robots ensures Booked(u, r) {
      assert Booked(s, r);
      if r == t.robot {
        assert u.queue[|s.queue|] == t;
      } else if s.robots[r].busy {
        var i :| 0 <= i < |s.queue| && s.queue[i].robot == r;
        assert u.queue[i] == s.queue[i];
      }
    }
  }

  lemma LaunchHonest(s: System, t: Task)
    requires PrioritiesHonest(s) && Orderly(s.queue, s.ledger) && !HasTask(s.queue, t.robot) && |t.path| > 0
    ensures PrioritiesHonest(Launched(s, t))
  {
    var u := Launched(s, t);
    ClaimKeeps(s.queue, s.ledger, t.robot, t.path[0], PriorityOf(s, t));
    forall i | 0 <= i < |u.queue| ensures NotOverstated(u, u.queue[i]) {
      if i < |s.queue| {
        assert NotOverstated(s, s.queue[i]);
      }
    }
  }

  // ---------------------------------------------------------------- changing modes

  /** Reservations of a robot without a task may change freely. */
  lemma TasklessKeeps(cfg: Config, s: System, t: System, r: Name)
    requires cfg.Valid() && Inv(cfg, s) && !HasTask(s.queue, r)
    requires t == s.(ledger := t.ledger, modes := t.modes) && Orderly(t.queue, t.ledger)
    requires t.ledger.waitFor == s.ledger.waitFor && t.modes - {r} == s.modes - {r}
    requires t.ledger.prio - {r} == s.ledger.prio - {r}
    ensures Inv(cfg, t)
  {
    forall i | 0 <= i < |t.queue| ensures Registered(t, t.queue[i]) && NotOverstated(t, t.queue[i]) {
      var x := t.queue[i].robot;
      assert Registered(s, s.queue[i]) && NotOverstated(s, s.queue[i]);
      assert x in t.modes - {r} <==> x in s.modes - {r};
      assert x in t.modes - {r} ==> t.modes[x] == (t.modes - {r})[x] == s.modes[x];
      assert x in s.ledger.prio - {r} ==> t.ledger.prio[x] == (t.ledger.prio - {r})[x] == s.ledger.prio[x];
    }
    forall x | x in t.robots ensures Booked(t, x) {
      assert Booked(s, x);
    }
  }

  lemma DropKeeps(cfg: Config, s: System, r: Name)
    requires cfg.Valid() && Inv(cfg, s) && !HasTask(s.queue, r)
    ensures Inv(cfg, s.(ledger := Dropped(s.ledger, r)))
  {
    var l := s.ledger;
    assert r in l.waitFor ==> Waiter(s.queue, l, r);
    assert Dropped(l, r).waitFor == l.waitFor - {r} == l.waitFor;
    VacateKeeps(s.queue, l, Dropped(l, r), r);
    TasklessKeeps(cfg, s, s.(ledger := Dropped(l, r)), r);
  }

  lemma ChargeKeeps(cfg: Config, s: System, r: Name)
    requires cfg.Valid() && Inv(cfg, s)
    ensures Inv(cfg, s.(modes := s.modes[r := Charging]))
  {
    var t := s.(modes := s.modes[r := Charging]);
    forall i | 0 <= i < |t.queue| ensures Registered(t, t.queue[i]) && NotOverstated(t, t.queue[i]) {
      assert Registered(s, s.queue[i]) && NotOverstated(s, s.queue[i]);
      assert RungOf(s.modes, s.queue[i]) <= RungOf(t.modes, t.queue[i]);
    }
    forall x | x in t.robots ensures Booked(t, x) {
      assert Booked(s, x);
    }
  }

  lemma ModeKeeps(cfg: Config, s: System, r: Name, m: Mode)
    requires cfg.Valid() && Inv(cfg, s) && !s.sweeping
    ensures Inv(cfg, ModeSet(cfg, s, r, m))
  {
    hide Inv;
    if m == Charging {
      ChargeKeeps(cfg, s, r);
    } else {
      CancelKeeps(cfg, s, r);
      var c := Cancelled(s, r);
      DropKeeps(cfg, c, r);
      var d := c.(ledger := Dropped(c.ledger, r));
      var e := d.(modes := d.modes[r := m]);
      assert e.modes - {r} == d.modes - {r};
      TasklessKeeps(cfg, d, e, r);
      if m == Stopped && r in e.robots {
        StopKeeps(cfg, e, r, StartOf(cfg, e, r));
      }
    }
  }

  lemma StopKeeps(cfg: Config, s: System, r: Name, node: int)
    requires cfg.Valid() && Inv(cfg, s) && !HasTask(s.queue, r)
    ensures Inv(cfg, s.(ledger := Requested(s.ledger, r, node, node, STOP_PRIO)))
  {
    var m := Requested(s.ledger, r, node, node, STOP_PRIO);
    ClaimKeeps(s.queue, s.ledger, r, node, STOP_PRIO);
    assert r in s.ledger.waitFor ==> Waiter(s.queue, s.ledger, r);
    assert m.waitFor == s.ledger.waitFor;
    assert m.prio - {r} == s.ledger.prio - {r};
    TasklessKeeps(cfg, s, s.(ledger := m), r);
  }

  // ---------------------------------------------------------------- observations and tick boundaries

  lemma ObserveKeeps(cfg: Config, s: System, r: Name, x: real, y: real)
    requires cfg.Valid() && Inv(cfg, s)
    ensures Inv(cfg, Observed(cfg, s, r, x, y))
  {
    var t := Observed(cfg, s, r, x, y);
    forall i | 0 <= i < |t.queue| ensures Registered(t, t.queue[i]) && NotOverstated(t, t.queue[i]) {
      assert Registered(s, s.queue[i]) && NotOverstated(s, s.queue[i]);
    }
    forall n | n in t.robots ensures Booked(t, n) {
      assert n in s.robots ==> Booked(s, n);
    }
  }

  lemma BatteryKeeps(cfg: Config, s: System, r: Name, v: real)
    requires cfg.Valid() && Inv(cfg, s)
    ensures Inv(cfg, Charged(s, r, v))
  {
    var t := Charged(s, r, v);
    forall i | 0 <= i < |t.queue| ensures Registered(t, t.queue[i]) && NotOverstated(t, t.queue[i]) {
      assert Registered(s, s.queue[i]) && NotOverstated(s, s.queue[i]);
    }
    forall n | n in t.robots ensures Booked(t, n) {
      assert n in s.robots ==> Booked(s, n);
    }
  }

  lemma TickKeeps(cfg: Config, s: System, t: System)
    requires cfg.Valid() && Inv(cfg, s) && s.left == 0
    requires t == s.(sweeping := true, left := |s.queue|) || t == s.(sweeping := false)
    ensures Inv(cfg, t)
  {
    hide Tabled, PrioritiesHonest, Orderly, TasksSound;
    TickTabled(s, t);
    TickHonest(s, t);
  }

  lemma TickTabled(s: System, t: System)
    requires Tabled(s) && s.left == 0
    requires t == s.(sweeping := true, left := |s.queue|) || t == s.(sweeping := false)
    ensures Tabled(t)
  {
    assert Listed(s.queue, |s.queue|) == s.queue == Listed(s.queue, 0);
    hide Listed, Oldest, ModeOf;
    forall i | 0 <= i < |t.queue| ensures Registered(t, t.queue[i]) {
      assert Registered(s, s.queue[i]);
    }
    forall n | n in t.robots ensures Booked(t, n) {
      assert Booked(s, n);
    }
  }

  lemma TickHonest(s: System, t: System)
    requires PrioritiesHonest(s) && (t == s.(sweeping := true, left := |s.queue|) || t == s.(sweeping := false))
    ensures PrioritiesHonest(t)
  {
    forall i | 0 <= i < |t.queue| ensures NotOverstated(t, t.queue[i]) {
      assert NotOverstated(s, s.queue[i]);
    }
  }

  // ---------------------------------------------------------------- one task turn

  /** What stuck detection and arrival leave alone. */
  ghost predicate Continues(cfg: Config, t0: Task, t: Task)
    requires cfg.Valid()
  {
    && Roadworthy(cfg, t) && Bounded(t)
    && t.robot == t0.robot && t.startSeq == t0.startSeq && t.patrol == t0.patrol && t.stuck == t0.stuck
    && (t.moving ==> t0.moving)
    && (t.moving == t0.moving ==> t.path == t0.path && t.idx == t0.idx)
  }

  lemma ProgressContinues(cfg: Config, r: RobotInfo, t: Task)
    requires cfg.Valid() && Roadworthy(cfg, t) && Bounded(t)
    ensures Progress(cfg, r, t).Goes? ==> Continues(cfg, t, Progress(cfg, r, t).task)
  {
    if t.patrol {
      LapIsClosed(cfg.graph, cfg.route, r.x, r.y, -1);
    }
  }

  lemma PlanRoadworthy(cfg: Config, t: Task, goal: int, plan: seq<int>, u: Task)
    requires cfg.Valid() && Roadworthy(cfg, t) && |plan| >= 2
    requires cfg.graph.Shortest(t.Here(), goal, t.Target(), plan)
    requires u.path == plan && u.idx == 1 && u.patrol == t.patrol && (t.patrol ==> goal in cfg.route)
    ensures Roadworthy(cfg, u) && u.Here() == t.Here() && u.Here() != u.Target() && u.Target() != t.Target()
  {
    assert cfg.graph.Route(t.Here(), goal, t.Target(), plan) && cfg.graph.Simple(plan);
  }

  /** The answer changes the route only to a detour, and the counters stay within their limits. */
  lemma ResolvedContinues(cfg: Config, t: Task, d: Decision, stopped: bool, plan: seq<int>)
    requires cfg.Valid() && Roadworthy(cfg, t) && Bounded(t) && !t.moving
    requires Searches(cfg, t, d, stopped) ==>
               cfg.graph.Shortest(t.Here(), DetourGoal(cfg, t, d == Wait && stopped), t.Target(), plan)
    ensures var u := Resolved(cfg, t, d, stopped, plan);
            && Roadworthy(cfg, u) && Bounded(u) && u.Here() == t.Here()
            && u.robot == t.robot && u.startSeq == t.startSeq && u.patrol == t.patrol
            && (u.moving <==> d == Grant) && (d == Grant ==> u.Target() == t.Target())
            && (d != Grant && t.Here() != t.Target() ==> MayWait(u))
            && (d == Wait ==> u.stuck == t.stuck)
  {
    if Detours(cfg, t, d, stopped, plan) {
      SuccFollowsLane(cfg.graph, cfg.route, t.Target());
      assert cfg.route[0..] == cfg.route;
      PlanRoadworthy(cfg, t, DetourGoal(cfg, t, d == Wait && stopped), plan, Resolved(cfg, t, d, stopped, plan));
    }
  }

  lemma RotatedSound(cfg: Config, q: seq<Task>, t: Task)
    requires cfg.Valid() && TasksSound(cfg, q) && |q| > 0 && Roadworthy(cfg, t) && Bounded(t)
    ensures TasksSound(cfg, Rotated(q, t))
  {
    var p := Rotated(q, t);
    forall i | 0 <= i < |p| ensures Roadworthy(cfg, p[i]) && Bounded(p[i]) {
      assert i < |p| - 1 ==> p[i] == q[i + 1];
    }
  }

  lemma RotatedTabled(s: System, u: System, t: Task)
    requires Tabled(s) && 0 < s.left && t.robot == s.queue[0].robot && t.startSeq == s.queue[0].startSeq
    requires u.queue == Rotated(s.queue, t) && u.left == s.left - 1 && s.sweeping && u.sweeping
    requires u.robots == s.robots && u.modes == s.modes && u.created == s.created
    ensures Tabled(u)
  {
    var q, p, k := s.queue, u.queue, s.left;
    forall i | 0 <= i < |p| ensures Registered(u, p[i]) {
      assert Registered(s, q[if i < |p| - 1 then i + 1 else 0]);
      assert i < |p| - 1 ==> p[i] == q[i + 1];
    }
    forall r | r in u.robots ensures Booked(u, r) {
      assert Booked(s, r);
      RotatedTasks(q, t, r);
    }
    var a, b := Listed(q, k), Listed(p, k - 1);
    forall i | 0 <= i < |b| ensures b[i].startSeq == a[i].startSeq {}
  }

  lemma EndedTabled(s: System, outcome: Outcome, nodes: seq<int>)
    requires Tabled(s) && 0 < s.left && s.sweeping && Distinct(s.queue)
    ensures Tabled(Ending(s, outcome, nodes))
  {
    hide Oldest, Listed, ReleasedAll, ModeOf;
    var u := Ending(s, outcome, nodes);
    var q, p, k := s.queue, u.queue, s.left;
    assert p == Removed(q, 0);
    forall i | 0 <= i < |p| ensures Registered(u, p[i]) {
      assert p[i] == q[i + 1] && Registered(s, q[i + 1]) && q[i + 1].robot != q[0].robot;
    }
    forall r | r in u.robots ensures Booked(u, r) {
      assert Booked(s, r);
      RemovedTasks(q, 0, r);
    }
    OldestRest(q, k);
    hide Oldest, Listed, Booked, Registered, ReleasedAll, HasTask;
  }

  lemma OldestRest(q: seq<Task>, k: nat)
    requires 0 < k <= |q| && Oldest(Listed(q, k))
    ensures Oldest(Listed(q[1..], k - 1))
  {
    var a, b := Listed(q, k), Listed(q[1..], k - 1);
    forall i | 0 <= i < |b| ensures b[i] == a[if i < |q| - k then i else i + 1] {}
  }

  lemma RotatedHonest(s: System, u: System, t: Task)
    requires PrioritiesHonest(s) && |s.queue| > 0 && u.queue == Rotated(s.queue, t) && u.modes == s.modes
    requires u.ledger.waitFor - {t.robot} == s.ledger.waitFor - {t.robot}
    requires u.ledger.prio - {t.robot} == s.ledger.prio - {t.robot}
    requires Distinct(s.queue) && t.robot == s.queue[0].robot && NotOverstated(u, t)
    ensures PrioritiesHonest(u)
  {
    forall i | 0 <= i < |u.queue| ensures NotOverstated(u, u.queue[i]) {
      if i < |u.queue| - 1 {
        var x := u.queue[i].robot;
        assert u.queue[i] == s.queue[i + 1] && NotOverstated(s, s.queue[i + 1]);
        assert x in u.ledger.waitFor ==> x in u.ledger.waitFor - {t.robot};
        assert x in s.ledger.prio ==>
                 x in s.ledger.prio - {t.robot} && u.ledger.prio[x] == (u.ledger.prio - {t.robot})[x];
      }
    }
  }

  lemma EndKeeps(cfg: Config, s: System, outcome: Outcome, nodes: seq<int>)
    requires cfg.Valid() && Inv(cfg, s) && s.sweeping && 0 < s.left
    requires nodes != []
    ensures Inv(cfg, Ending(s, outcome, nodes))
  {
    var u, r := Ending(s, outcome, nodes), s.queue[0].robot;
    assert u.queue == Removed(s.queue, 0);
    ReleasedAllVacates(s.ledger, r, nodes);
    RemoveKeeps(s.queue, 0, s.ledger, u.ledger);
    RemovedSound(cfg, s.queue, 0);
    EndedTabled(s, outcome, nodes);
    RemovedHonest(s, 0, u);
  }

  lemma {:induction false} ReleasedAllVacates(l: Ledger, r: Name, nodes: seq<int>)
    requires nodes != []
    ensures Vacates(l, ReleasedAll(l, r, nodes), r) && ReleasedAll(l, r, nodes).prio == l.prio
    ensures forall n | n in nodes :: !Owns(ReleasedAll(l, r, nodes), r, n)
    decreases |nodes|
  {
    if |nodes| > 1 {
      ReleasedAllVacates(Released(l, r, nodes[0]), r, nodes[1..]);
    } else {
      assert ReleasedAll(Released(l, r, nodes[0]), r, nodes[1..]) == Released(l, r, nodes[0]);
    }
  }

  lemma DriveKeeps(cfg: Config, s: System, t: Task)
    requires cfg.Valid() && Inv(cfg, s) && s.sweeping && 0 < s.left
    requires Continues(cfg, s.queue[0], t) && t.moving
    ensures Inv(cfg, s.(queue := s.queue[1..] + [t], left := s.left - 1))
  {
    var u := s.(queue := s.queue[1..] + [t], left := s.left - 1);
    assert OwnsTarget(s.ledger, s.queue[0]);
    assert t.robot !in s.ledger.waitFor;
    RotateKeeps(s.queue, s.ledger, t);
    RotatedSound(cfg, s.queue, t);
    RotatedTabled(s, u, t);
    RotatedHonest(s, u, t);
  }

  lemma AskKeeps(cfg: Config, s: System, t: Task, plan: seq<int>)
    requires cfg.Valid() && Inv(cfg, s) && s.sweeping && 0 < s.left
    requires Continues(cfg, s.queue[0], t) && !t.moving
    requires PlanAnswers(cfg, s, t, plan)
    ensures Inv(cfg, Asking(cfg, s, t, plan))
  {
    var d, u := Answered(s, t), Asking(cfg, s, t, plan);
    var v := Resolved(cfg, t, d, StoppedAhead(s, t), plan);
    ResolvedContinues(cfg, t, d, StoppedAhead(s, t), plan);
    HeadMayWait(s, cfg, t);
    AskingTurns(s, t);
    TurnKeeps(s.queue, s.ledger, u.ledger, v);
    RotatedSound(cfg, s.queue, v);
    RotatedTabled(s, u, v);
    AskedPriority(s, t, v);
    RotatedHonest(s, u, v);
  }

  lemma HeadMayWait(s: System, cfg: Config, t: Task)
    requires cfg.Valid() && Inv(cfg, s) && |s.queue| > 0 && Continues(cfg, s.queue[0], t) && !t.moving
    ensures t.robot in s.ledger.waitFor ==> t.Here() != t.Target() && s.ledger.waitFor[t.robot] != t.robot
  {
    if t.robot in s.ledger.waitFor {
      assert Waiter(s.queue, s.ledger, t.robot) && MayWait(s.queue[0]);
    }
  }

  lemma AskedPriority(s: System, t: Task, v: Task)
    requires 0 < t.idx < |t.path| && v.robot == t.robot && v.patrol == t.patrol && v.startSeq == t.startSeq
    requires Answered(s, t) == Wait ==> v.stuck == t.stuck
    ensures AskedLedger(s, t).prio - {t.robot} == s.ledger.prio - {t.robot}
    ensures t.robot in AskedLedger(s, t).prio
    ensures Answered(s, t) == Wait ==> AskedLedger(s, t).prio[t.robot] / AGE_STEP == RungOf(s.modes, v)
  {
    hide Victim;
    RungOfPriority(TierOf(s.modes, t), t.startSeq, BatteryOf(s.robots, t.robot));
    assert PriorityOf(s, t) / AGE_STEP == RungOf(s.modes, t);
    hide PriorityOf;
    assert AskedLedger(s, t).prio == s.ledger.prio[t.robot := PriorityOf(s, t)];
  }

  /** Between turns of a tick the head can always be polled, so no turn indexes out of bounds. */
  lemma HeadPollable(cfg: Config, s: System)
    requires cfg.Valid() && Inv(cfg, s) && 0 < s.left
    ensures |s.queue| > 0 && Pollable(cfg, s, s.queue[0])
    ensures HeadFate(cfg, s).Goes? ==> Continues(cfg, s.queue[0], HeadFate(cfg, s).task)
  {
    assert Registered(s, s.queue[0]) && Roadworthy(cfg, s.queue[0]) && Bounded(s.queue[0]);
    ProgressContinues(cfg, s.robots[s.queue[0].robot], s.queue[0]);
  }

  lemma PollKeeps(cfg: Config, s: System, plan: seq<int>)
    requires cfg.Valid() && Inv(cfg, s) && Enabled(cfg, s, Poll(plan))
    ensures Inv(cfg, Polled(cfg, s, plan))
  {
    HeadPollable(cfg, s);
    match HeadFate(cfg, s)
    case Ends(outcome, nodes) => EndKeeps(cfg, s, outcome, nodes);
    case Goes(t) =>
      if t.moving {
        DriveKeeps(cfg, s, t);
      } else {
        AskKeeps(cfg, s, t, plan);
      }
  }
}
