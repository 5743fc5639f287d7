/** Who owns which node: conservation of reservations, and why moving robots keep apart. */
module Seats {
  import opened Names
  import opened Reservation
  import opened Priorities
  import opened Patrol
  import opened Fleet
  import opened Traffic
  import opened Invariants

  /** The one node a task may hold: its target while moving, its current node otherwise. */
  function Seat(t: Task): int
    requires 0 < t.idx < |t.path|
  {
    if t.moving then t.Target() else t.Here()
  }

  predicate SitsAt(t: Task, n: int) {
    0 < t.idx < |t.path| && n == Seat(t)
  }

  /** The owner of `n` has a task seated there, or is a stopped robot that owns nothing else. */
  ghost predicate Accounted(s: System, n: int)
    requires n in s.ledger.owner
  {
    var r := s.ledger.owner[n];
    && (forall i | 0 <= i < |s.queue| && s.queue[i].robot == r :: SitsAt(s.queue[i], n))
    && (HasTask(s.queue, r)
        || (ModeOf(s.modes, r) == Stopped && forall m | m in s.ledger.owner && s.ledger.owner[m] == r :: m == n))
  }

  ghost predicate Conserved(s: System) {
    forall n {:trigger Accounted(s, n)} | n in s.ledger.owner :: Accounted(s, n)
  }

  predicate OwnsNothing(l: Ledger, r: Name) {
    forall n | n in l.owner :: l.owner[n] != r
  }

  // ---------------------------------------------------------------- events other than polls

  lemma TasklessOwnsNothing(s: System, r: Name)
    requires Conserved(s) && !HasTask(s.queue, r) && ModeOf(s.modes, r) != Stopped
    ensures OwnsNothing(s.ledger, r)
  {
    forall n | n in s.ledger.owner ensures s.ledger.owner[n] != r {
      assert Accounted(s, n);
    }
  }

  /** What a robot gives up entirely leaves everyone else accounted for. */
  lemma VacateConserves(s: System, k: nat, t: System)
    requires Conserved(s) && Distinct(s.queue) && k < |s.queue| && t.queue == Removed(s.queue, k) && t.modes == s.modes
    requires Vacates(s.ledger, t.ledger, s.queue[k].robot) && OwnsNothing(t.ledger, s.queue[k].robot)
    ensures Conserved(t)
  {
    forall n | n in t.ledger.owner ensures Accounted(t, n) {
      assert Accounted(s, n);
      RemovedTasks(s.queue, k, t.ledger.owner[n]);
      assert forall i | 0 <= i < |t.queue| :: t.queue[i] == s.queue[if i < k then i else i + 1];
    }
  }

  lemma CancelConserves(cfg: Config, s: System, r: Name)
    requires cfg.Valid() && Inv(cfg, s) && !s.sweeping && Conserved(s)
    ensures Conserved(Cancelled(s, r))
    ensures HasTask(s.queue, r) ==> OwnsNothing(Cancelled(s, r).ledger, r)
  {
    if HasTask(s.queue, r) {
      var i :| 0 <= i < |s.queue| && s.queue[i].robot == r;
      assert Roadworthy(cfg, s.queue[i]);
      WithoutOne(s.ledger, s.queue, r, i);
      CancelFacts(s, r, i);
      var l := Cancelled(s, r).ledger;
      forall n | n in l.owner ensures l.owner[n] != r {
        assert Accounted(s, n);
      }
      VacateConserves(s, i, Cancelled(s, r));
    } else {
      WithoutNone(s.ledger, s.queue, r);
      SameSeats(s, Cancelled(s, r));
    }
  }

  lemma SameSeats(s: System, t: System)
    requires Conserved(s) && t.queue == s.queue && t.ledger == s.ledger
    requires forall r | ModeOf(s.modes, r) == Stopped :: ModeOf(t.modes, r) == Stopped
    ensures Conserved(t)
  {
    forall n | n in t.ledger.owner ensures Accounted(t, n) {
      assert Accounted(s, n);
    }
  }

  lemma LaunchConserves(s: System, t: Task)
    requires Conserved(s) && Orderly(s.queue, s.ledger)
    requires !HasTask(s.queue, t.robot) && ModeOf(s.modes, t.robot) != Stopped
    requires |t.path| > 1 && t.idx == 1 && !t.moving
    ensures Conserved(Launched(s, t))
  {
    var u := Launched(s, t);
    TasklessOwnsNothing(s, t.robot);
    forall n | n in u.ledger.owner ensures Accounted(u, n) {
      if n in s.ledger.owner {
        assert Accounted(s, n);
        var r := s.ledger.owner[n];
        if HasTask(s.queue, r) {
          var i :| 0 <= i < |s.queue| && s.queue[i].robot == r;
          assert u.queue[i] == s.queue[i];
        }
      } else {
        assert u.queue[|s.queue|] == t;
      }
    }
  }

  /** A robot that owns nothing and has no task may change its mode. */
  lemma RemodeConserves(s: System, r: Name, m: Mode)
    requires Conserved(s) && OwnsNothing(s.ledger, r)
    ensures Conserved(s.(modes := s.modes[r := m]))
  {
    var t := s.(modes := s.modes[r := m]);
    forall n | n in t.ledger.owner ensures Accounted(t, n) {
      assert Accounted(s, n);
    }
  }

  lemma DropConserves(s: System, r: Name)
    requires Conserved(s)
    ensures Conserved(s.(ledger := Dropped(s.ledger, r))) && OwnsNothing(Dropped(s.ledger, r), r)
  {
    var t := s.(ledger := Dropped(s.ledger, r));
    forall n | n in t.ledger.owner ensures Accounted(t, n) {
      assert Accounted(s, n);
    }
  }

  lemma StopConserves(s: System, r: Name, node: int)
    requires Conserved(s) && OwnsNothing(s.ledger, r) && !HasTask(s.queue, r) && ModeOf(s.modes, r) == Stopped
    ensures Conserved(s.(ledger := Requested(s.ledger, r, node, node, STOP_PRIO)))
  {
    var t := s.(ledger := Requested(s.ledger, r, node, node, STOP_PRIO));
    forall n | n in t.ledger.owner ensures Accounted(t, n) {
      if n in s.ledger.owner {
        assert Accounted(s, n);
      }
    }
  }

  lemma ModeConserves(cfg: Config, s: System, r: Name, m: Mode)
    requires cfg.Valid() && Inv(cfg, s) && !s.sweeping && Conserved(s) && m != Charging
    ensures Conserved(ModeSet(cfg, s, r, m))
  {
    CancelKeeps(cfg, s, r);
    CancelConserves(cfg, s, r);
    var c := Cancelled(s, r);
    hide Inv;
    DropConserves(c, r);
    var d := c.(ledger := Dropped(c.ledger, r));
    RemodeConserves(d, r, m);
    var e := d.(modes := d.modes[r := m]);
    if m == Stopped && r in e.robots {
      StopConserves(e, r, StartOf(cfg, e, r));
    }
  }

  /**
   Every mode but CHARGE ends what the robot is doing and frees everything it owned; a stopped robot then claims
   the vertex nearest to it, and holds it exactly if nobody else does.
   */
  lemma ModeClears(cfg: Config, s: System, r: Name, m: Mode)
    requires cfg.Valid() && Inv(cfg, s) && !s.sweeping && m != Charging
    ensures var n := ModeSet(cfg, s, r, m);
            && !HasTask(n.queue, r) && r in n.modes && n.modes[r] == m && (r in n.robots ==> !n.robots[r].busy)
            && (m != Stopped || r !in s.robots ==> OwnsNothing(n.ledger, r))
            && (m == Stopped && r in s.robots ==>
                  var v := cfg.graph.NearestVertex(s.robots[r].x, s.robots[r].y);
                  && (forall node | Owns(n.ledger, r, node) :: node == v)
                  && (Owns(n.ledger, r, v) <==> Free(s.ledger, r, v)))
  {
    hide Inv, Cancelled, Victim;
    CancelKeeps(cfg, s, r);
    CancelOwners(cfg, s, r);
    var c := Cancelled(s, r);
    var d := c.(ledger := Dropped(c.ledger, r), modes := c.modes[r := m]);
    assert OwnsNothing(d.ledger, r);
  }

  /** Cancelling changes nobody else's reservations, and only the robot's own record. */
  lemma CancelOwners(cfg: Config, s: System, r: Name)
    requires cfg.Valid() && Inv(cfg, s)
    ensures var c := Cancelled(s, r);
            && (forall node | node in s.ledger.owner && s.ledger.owner[node] != r ::
                  node in c.ledger.owner && c.ledger.owner[node] == s.ledger.owner[node])
            && (forall node | node in c.ledger.owner ::
                  node in s.ledger.owner && c.ledger.owner[node] == s.ledger.owner[node])
            && c.modes == s.modes && c.robots == SetBusy(s.robots, r, false)
  {
    if HasTask(s.queue, r) {
      var i :| 0 <= i < |s.queue| && s.queue[i].robot == r;
      assert Roadworthy(cfg, s.queue[i]);
      CancelFacts(s, r, i);
    } else {
      WithoutNone(s.ledger, s.queue, r);
    }
    hide Inv, Roadworthy, Without, ReleasedTasks;
  }

  /** Switching to CHARGE skips the release: it strands the node of a stopped robot, and nothing else. */
  lemma ChargeConserves(cfg: Config, s: System, r: Name)
    requires cfg.Valid() && Inv(cfg, s) && Conserved(s)
    ensures Conserved(ModeSet(cfg, s, r, Charging)) <==> !(ModeOf(s.modes, r) == Stopped && !OwnsNothing(s.ledger, r))
  {
    var t := ModeSet(cfg, s, r, Charging);
    if ModeOf(s.modes, r) == Stopped && !OwnsNothing(s.ledger, r) {
      var n :| n in s.ledger.owner && s.ledger.owner[n] == r;
      forall i | 0 <= i < |s.queue| ensures s.queue[i].robot != r {
        assert Registered(s, s.queue[i]);
      }
      assert !Accounted(t, n);
    } else {
      forall n | n in t.ledger.owner ensures Accounted(t, n) {
        assert Accounted(s, n);
      }
    }
  }

  // ---------------------------------------------------------------- polls

  lemma EndConserves(cfg: Config, s: System, outcome: Outcome, nodes: seq<int>)
    requires cfg.Valid() && Inv(cfg, s) && Conserved(s) && s.sweeping && 0 < s.left
    requires nodes != [] && Seat(s.queue[0]) in nodes
    ensures Conserved(Ending(s, outcome, nodes))
  {
    var u, r := Ending(s, outcome, nodes), s.queue[0].robot;
    ReleasedAllVacates(s.ledger, r, nodes);
    forall n | n in u.ledger.owner ensures u.ledger.owner[n] != r {
      assert Accounted(s, n);
      assert n in nodes ==> !Owns(u.ledger, r, n);
    }
    assert u.queue == Removed(s.queue, 0);
    hide Inv, Ending;
    VacateConserves(s, 0, u);
  }

  /** The head's turn changes only its own entries, so the others stay accounted for. */
  lemma TurnConserves(s: System, u: System, t: Task)
    requires Conserved(s) && Distinct(s.queue) && |s.queue| > 0 && t.robot == s.queue[0].robot
    requires u.queue == Rotated(s.queue, t) && u.modes == s.modes && TurnedBy(s.ledger, u.ledger, t.robot)
    requires forall n | Owns(u.ledger, t.robot, n) :: SitsAt(t, n)
    ensures Conserved(u)
  {
    var r, p := t.robot, u.queue;
    forall n | n in u.ledger.owner ensures Accounted(u, n) {
      var x := u.ledger.owner[n];
      RotatedTasks(s.queue, t, x);
      if x == r {
        assert Owns(u.ledger, r, n);
        assert forall i | 0 <= i < |p| && p[i].robot == r :: i == |p| - 1;
        assert s.queue[0].robot == r;
      } else {
        assert Accounted(s, n);
        assert forall i | 0 <= i < |p| && p[i].robot == x :: p[i] == s.queue[i + 1];
      }
    }
  }

  /** The head robot holds nothing but its seat. */
  lemma HeadOwns(s: System, n: int)
    requires Conserved(s) && |s.queue| > 0 && Owns(s.ledger, s.queue[0].robot, n)
    ensures SitsAt(s.queue[0], n)
  {
    assert Accounted(s, n);
  }

  /** The lap restarts away from the node just reached, and does not lead straight back to it. */
  predicate Strays(t0: Task, t: Task)
    requires 0 < t0.idx < |t0.path| && 0 < t.idx < |t.path|
  {
    t.Here() != Seat(t0) && t.Target() != Seat(t0)
  }

  lemma AskConserves(cfg: Config, s: System, t: Task, plan: seq<int>)
    requires cfg.Valid() && Inv(cfg, s) && Conserved(s) && s.sweeping && 0 < s.left
    requires Continues(cfg, s.queue[0], t) && !t.moving && !Strays(s.queue[0], t)
    requires t.Here() != Seat(s.queue[0]) ==> Owns(s.ledger, t.robot, Seat(s.queue[0]))
    requires PlanAnswers(cfg, s, t, plan)
    ensures Conserved(Asking(cfg, s, t, plan))
  {
    var d, u := Answered(s, t), Asking(cfg, s, t, plan);
    var v := Resolved(cfg, t, d, StoppedAhead(s, t), plan);
    ResolvedContinues(cfg, t, d, StoppedAhead(s, t), plan);
    HeadMayWait(s, cfg, t);
    AskingTurns(s, t);
    forall n | Owns(u.ledger, t.robot, n) ensures SitsAt(v, n) {
      AskedOwns(s, t, n);
      if n != t.Target() || d != Grant {
        HeadOwns(s, n);
      }
    }
    hide Inv, Resolved;
    TurnConserves(s, u, v);
  }

  /** What the asking robot owns afterwards: after a grant its target and old nodes it did not leave. */
  lemma AskedOwns(s: System, t: Task, n: int)
    requires 0 < t.idx < |t.path| && Owns(AskedLedger(s, t), t.robot, n)
    ensures Answered(s, t) == Grant ==> n == t.Target() || (n != t.Here() && Owns(s.ledger, t.robot, n))
    ensures Answered(s, t) != Grant ==> Owns(s.ledger, t.robot, n)
  {
    hide Victim, PriorityOf;
  }

  lemma StrayingLeaks(cfg: Config, s: System, t: Task, plan: seq<int>)
    requires cfg.Valid() && Inv(cfg, s) && s.sweeping && 0 < s.left
    requires Continues(cfg, s.queue[0], t) && !t.moving && Strays(s.queue[0], t)
    requires Owns(s.ledger, t.robot, Seat(s.queue[0]))
    requires PlanAnswers(cfg, s, t, plan)
    ensures !Conserved(Asking(cfg, s, t, plan))
  {
    var d, u, n := Answered(s, t), Asking(cfg, s, t, plan), Seat(s.queue[0]);
    var v := Resolved(cfg, t, d, StoppedAhead(s, t), plan);
    ResolvedContinues(cfg, t, d, StoppedAhead(s, t), plan);
    StrayNodeStays(s, t, n);
    assert u.queue[|u.queue| - 1] == v && !SitsAt(v, n);
    assert !Accounted(u, n);
  }

  lemma StrayNodeStays(s: System, t: Task, n: int)
    requires 0 < t.idx < |t.path| && Owns(s.ledger, t.robot, n) && n != t.Here()
    ensures Owns(AskedLedger(s, t), t.robot, n)
  {
    hide Victim, PriorityOf;
  }

  /** The poll about to happen restarts a lap at a place from which the node just reached is lost. */
  ghost predicate LapLeaks(cfg: Config, s: System)
    requires cfg.Valid() && |s.queue| > 0 && Pollable(cfg, s, s.queue[0])
  {
    Requests(cfg, s) && Strays(s.queue[0], HeadFate(cfg, s).task)
  }

  /** Only a lap restart can separate a task from its seat, and then the task was moving. */
  lemma StraysOnlyAtLapEnd(cfg: Config, s: System)
    requires cfg.Valid() && Inv(cfg, s) && 0 < s.left && Pollable(cfg, s, s.queue[0]) && Requests(cfg, s)
    requires HeadFate(cfg, s).task.Here() != Seat(s.queue[0])
    ensures var t := s.queue[0];
            t.moving && t.patrol && t.idx == |t.path| - 1 && AtTarget(cfg, s.robots[t.robot], t)
            && HeadFate(cfg, s).task.path == Lap(cfg.graph, cfg.route, s.robots[t.robot].x, s.robots[t.robot].y, -1)
    ensures Owns(s.ledger, s.queue[0].robot, Seat(s.queue[0]))
  {
    assert Roadworthy(cfg, s.queue[0]) && OwnsTarget(s.ledger, s.queue[0]);
    hide Lap;
  }

  /** A poll keeps the reservations accounted for unless it restarts a lap elsewhere; then it never does. */
  lemma PollConserves(cfg: Config, s: System, plan: seq<int>)
    requires cfg.Valid() && Inv(cfg, s) && Conserved(s) && Enabled(cfg, s, Poll(plan))
    ensures Conserved(Polled(cfg, s, plan)) <==> !LapLeaks(cfg, s)
  {
    HeadPollable(cfg, s);
    assert Roadworthy(cfg, s.queue[0]);
    match HeadFate(cfg, s)
    case Ends(outcome, nodes) =>
      EndsAtSeat(cfg, s);
      EndConserves(cfg, s, outcome, nodes);
    case Goes(t) =>
      if t.moving {
        DriveConserves(cfg, s, t);
      } else {
        if t.Here() != Seat(s.queue[0]) {
          StraysOnlyAtLapEnd(cfg, s);
        }
        hide Inv;
        if Strays(s.queue[0], t) {
          StrayingLeaks(cfg, s, t, plan);
        } else {
          AskConserves(cfg, s, t, plan);
        }
      }
  }

  lemma EndsAtSeat(cfg: Config, s: System)
    requires cfg.Valid() && Inv(cfg, s) && 0 < s.left && Pollable(cfg, s, s.queue[0]) && HeadFate(cfg, s).Ends?
    ensures HeadFate(cfg, s).nodes != [] && Seat(s.queue[0]) in HeadFate(cfg, s).nodes
  {
    assert Roadworthy(cfg, s.queue[0]) && Bounded(s.queue[0]);
    hide Lap;
  }

  lemma DriveConserves(cfg: Config, s: System, t: Task)
    requires cfg.Valid() && Inv(cfg, s) && Conserved(s) && s.sweeping && 0 < s.left
    requires Continues(cfg, s.queue[0], t) && t.moving
    ensures Conserved(s.(queue := s.queue[1..] + [t], left := s.left - 1))
  {
    var u := s.(queue := s.queue[1..] + [t], left := s.left - 1);
    forall n | Owns(u.ledger, t.robot, n) ensures SitsAt(t, n) {
      HeadOwns(s, n);
    }
    assert OwnsTarget(s.ledger, s.queue[0]);
    assert t.robot !in s.ledger.waitFor;
    TurnConserves(s, u, t);
  }
}
