/** A task that holds its node keeps holding one: it lets go only of a node it leaves for another it owns. */
module Holding {
  import opened Names
  import opened Reservation
  import opened Priorities
  import opened Navgraph
  import opened Fleet
  import opened Traffic
  import opened Invariants
  import opened Runs
  import opened Seats
  import opened Conservation
  import opened Histories

  predicate SeatOwned(l: Ledger, t: Task) {
    0 < t.idx < |t.path| && Owns(l, t.robot, Seat(t))
  }

  /** The task created as number `id`, if it still exists, owns its seat. */
  predicate Holds(q: seq<Task>, l: Ledger, id: int) {
    forall i | 0 <= i < |q| && q[i].startSeq == id :: SeatOwned(l, q[i])
  }

  lemma RemovedHolds(q: seq<Task>, k: nat, l: Ledger, m: Ledger, id: int)
    requires Distinct(q) && k < |q| && Holds(q, l, id) && Vacates(l, m, q[k].robot)
    ensures Holds(Removed(q, k), m, id)
  {
    var p := Removed(q, k);
    forall i | 0 <= i < |p| && p[i].startSeq == id ensures SeatOwned(m, p[i]) {
      var j := if i < k then i else i + 1;
      assert p[i] == q[j] && SeatOwned(l, q[j]);
      assert q[j].robot != q[k].robot;
    }
  }

  lemma CancelHolds(cfg: Config, s: System, r: Name, id: int)
    requires cfg.Valid() && Inv(cfg, s) && Holds(s.queue, s.ledger, id)
    ensures Holds(Cancelled(s, r).queue, Cancelled(s, r).ledger, id)
  {
    if HasTask(s.queue, r) {
      var i :| 0 <= i < |s.queue| && s.queue[i].robot == r;
      assert Roadworthy(cfg, s.queue[i]);
      CancelFacts(s, r, i);
      RemovedHolds(s.queue, i, s.ledger, Cancelled(s, r).ledger, id);
    } else {
      WithoutNone(s.ledger, s.queue, r);
    }
  }

  lemma ClaimHolds(q: seq<Task>, l: Ledger, r: Name, node: int, p: int, id: int)
    requires Holds(q, l, id)
    ensures Holds(q, Requested(l, r, node, node, p), id)
  {
    forall i | 0 <= i < |q| && q[i].startSeq == id ensures SeatOwned(Requested(l, r, node, node, p), q[i]) {
      assert SeatOwned(l, q[i]);
    }
  }

  lemma LaunchHolds(s: System, t: Task, id: int)
    requires Holds(s.queue, s.ledger, id) && t.startSeq != id && |t.path| > 0
    ensures Holds(Launched(s, t).queue, Launched(s, t).ledger, id)
  {
    ClaimHolds(s.queue, s.ledger, t.robot, t.path[0], PriorityOf(s, t), id);
  }

  /** A new task holds its first node exactly when its claim could be granted; the program does not look. */
  lemma StartsHolding(s: System, t: Task)
    requires |t.path| > 1 && t.idx == 1 && !t.moving
    ensures SeatOwned(Launched(s, t).ledger, t) <==> Free(s.ledger, t.robot, t.path[0])
  {
    hide Victim, PriorityOf;
  }

  lemma ModeHolds(cfg: Config, s: System, r: Name, m: Mode, id: int)
    requires cfg.Valid() && Inv(cfg, s) && !s.sweeping && Holds(s.queue, s.ledger, id)
    ensures Holds(ModeSet(cfg, s, r, m).queue, ModeSet(cfg, s, r, m).ledger, id)
  {
    hide Requested, StartOf, ReleasedTasks;
    if m != Charging {
      CancelHolds(cfg, s, r, id);
      CancelKeeps(cfg, s, r);
      hide Inv, Cancelled;
      var c := Cancelled(s, r);
      var d := c.(ledger := Dropped(c.ledger, r)).(modes := c.modes[r := m]);
      forall i | 0 <= i < |d.queue| && d.queue[i].startSeq == id ensures SeatOwned(d.ledger, d.queue[i]) {
        assert SeatOwned(c.ledger, c.queue[i]) && c.queue[i].robot != r;
      }
      if m == Stopped && r in d.robots {
        ClaimHolds(d.queue, d.ledger, r, StartOf(cfg, d, r), STOP_PRIO, id);
      }
    }
  }

  lemma SubmitHolds(cfg: Config, s: System, e: Event, id: int)
    requires cfg.Valid() && Inv(cfg, s) && e.Submit? && Enabled(cfg, s, e)
    requires id <= s.created && Holds(s.queue, s.ledger, id)
    ensures Holds(Apply(cfg, s, e).queue, Apply(cfg, s, e).ledger, id)
  {
    if Judged(cfg, s, e.goal, e.armActions, e.forced, e.winner, e.plan) == Accepted {
      var r: Name := Chosen(e.forced, e.winner);
      CancelHolds(cfg, s, r, id);
      var c := if s.robots[r].busy then Cancelled(s, r) else s;
      hide Inv, Holds, Cancelled, Launched, Graph.Shortest, Graph.Valid, StartOf;
      LaunchHolds(c, NewTask(r, TaskPath(StartOf(cfg, s, r), e.goal, e.plan), false, s.created + 1), id);
    }
  }

  lemma RotatedHolds(q: seq<Task>, t: Task, l: Ledger, m: Ledger, id: int)
    requires Distinct(q) && |q| > 0 && t.robot == q[0].robot && Holds(q, l, id) && TurnedBy(l, m, t.robot)
    requires t.startSeq == id ==> SeatOwned(m, t)
    ensures Holds(Rotated(q, t), m, id)
  {
    var p := Rotated(q, t);
    forall i | 0 <= i < |p| && p[i].startSeq == id ensures SeatOwned(m, p[i]) {
      if i < |p| - 1 {
        assert p[i] == q[i + 1] && SeatOwned(l, q[i + 1]);
        assert q[0].robot != q[i + 1].robot;
      }
    }
  }

  lemma AskHolds(cfg: Config, s: System, t: Task, plan: seq<int>, id: int)
    requires cfg.Valid() && Inv(cfg, s) && s.sweeping && 0 < s.left && Holds(s.queue, s.ledger, id)
    requires Continues(cfg, s.queue[0], t) && !t.moving
    requires t.startSeq == id ==> 0 < s.queue[0].idx < |s.queue[0].path| && !Strays(s.queue[0], t)
    requires PlanAnswers(cfg, s, t, plan)
    ensures Holds(Asking(cfg, s, t, plan).queue, Asking(cfg, s, t, plan).ledger, id)
  {
    var d, u := Answered(s, t), Asking(cfg, s, t, plan);
    var v := Resolved(cfg, t, d, StoppedAhead(s, t), plan);
    ResolvedContinues(cfg, t, d, StoppedAhead(s, t), plan);
    HeadMayWait(s, cfg, t);
    AskingTurns(s, t);
    if t.startSeq == id {
      assert SeatOwned(s.ledger, s.queue[0]);
      if d != Grant {
        KeptOnHold(s, t);
      }
    }
    hide Inv, Resolved;
    RotatedHolds(s.queue, v, s.ledger, u.ledger, id);
  }

  lemma KeptOnHold(s: System, t: Task)
    requires 0 < t.idx < |t.path| && Answered(s, t) != Grant
    ensures AskedLedger(s, t).owner == s.ledger.owner && !Owns(s.ledger, t.robot, t.Target())
  {
    hide Victim, PriorityOf;
  }

  lemma PollHolds(cfg: Config, s: System, plan: seq<int>, id: int)
    requires cfg.Valid() && Inv(cfg, s) && Enabled(cfg, s, Poll(plan)) && Holds(s.queue, s.ledger, id)
    requires LapLeaks(cfg, s) ==> s.queue[0].startSeq != id
    ensures Holds(Polled(cfg, s, plan).queue, Polled(cfg, s, plan).ledger, id)
  {
    HeadPollable(cfg, s);
    match HeadFate(cfg, s)
    case Ends(outcome, nodes) =>
      EndsAtSeat(cfg, s);
      ReleasedAllVacates(s.ledger, s.queue[0].robot, nodes);
      assert Ending(s, outcome, nodes).queue == Removed(s.queue, 0);
      RemovedHolds(s.queue, 0, s.ledger, Ending(s, outcome, nodes).ledger, id);
    case Goes(t) =>
      if t.moving {
        assert OwnsTarget(s.ledger, s.queue[0]);
        assert t.robot !in s.ledger.waitFor;
        RotatedHolds(s.queue, t, s.ledger, s.ledger, id);
      } else {
        AskHolds(cfg, s, t, plan, id);
      }
  }

  /** In this event the patrol with this number restarts its lap where the node just reached is lost. */
  ghost predicate StraysNow(cfg: Config, s: System, e: Event, id: int)
    requires cfg.Valid() && Enabled(cfg, s, e)
  {
    e.Poll? && LapLeaks(cfg, s) && s.queue[0].startSeq == id
  }

  ghost predicate NeverStrays(cfg: Config, s: System, es: seq<Event>, id: int)
    requires cfg.Valid() && Legal(cfg, s, es)
    decreases |es|
  {
    es == [] || (!StraysNow(cfg, s, es[0], id) && NeverStrays(cfg, Apply(cfg, s, es[0]), es[1..], id))
  }

  /** Whatever happens, a task that owns its seat still owns its seat, or is gone; only a straying lap excepted. */
  lemma StepHolds(cfg: Config, s: System, e: Event, id: int)
    requires cfg.Valid() && Inv(cfg, s) && Enabled(cfg, s, e) && id <= s.created && Holds(s.queue, s.ledger, id)
    requires !StraysNow(cfg, s, e, id)
    ensures Holds(Apply(cfg, s, e).queue, Apply(cfg, s, e).ledger, id)
  {
    match e
    case Observe(r, x, y) =>
    case SetBattery(r, v) =>
    case SetMode(r, m) => ModeHolds(cfg, s, r, m, id);
    case Submit(_, _, _, _, _) => SubmitHolds(cfg, s, e, id);
    case StartPatrol(r) => LaunchHolds(s, Apply(cfg, s, e).queue[|s.queue|], id);
    case Begin =>
    case Poll(plan) => PollHolds(cfg, s, plan, id);
    case End =>
  }

  /** Over a whole run, a task that once owns its seat and does not stray owns one for the rest of its life. */
  lemma {:induction false} RunHolds(cfg: Config, s: System, es: seq<Event>, id: int)
    requires cfg.Valid() && Inv(cfg, s) && Legal(cfg, s, es) && NeverStrays(cfg, s, es, id)
    requires id <= s.created && Holds(s.queue, s.ledger, id)
    ensures Holds(Run(cfg, s, es).queue, Run(cfg, s, es).ledger, id)
    decreases |es|
  {
    if es != [] {
      StepKeeps(cfg, s, es[0]);
      StepHolds(cfg, s, es[0], id);
      CreatedGrows(cfg, s, es[0]);
      hide Inv, Holds;
      RunHolds(cfg, Apply(cfg, s, es[0]), es[1..], id);
    }
  }

  // ---------------------------------------------------------------- who never strays

  predicate Delivery(q: seq<Task>, id: int) {
    AllOf(q, id, (t: Task) => !t.patrol)
  }

  lemma DeliveryStep(cfg: Config, s: System, e: Event, id: int)
    requires cfg.Valid() && Inv(cfg, s) && Enabled(cfg, s, e) && id <= s.created && Delivery(s.queue, id)
    ensures Delivery(Apply(cfg, s, e).queue, id) && !StraysNow(cfg, s, e, id)
  {
    hide Inv, Progress, Answered, Apply, Seat, StoppedAhead, Detours, Resolved;
    if Turn(cfg, s, e, id) {
      HeadPollable(cfg, s);
      if HeadFate(cfg, s).Goes? {
        HeadSeq(cfg, s, e.plan);
      }
      if Requests(cfg, s) && HeadFate(cfg, s).task.Here() != Seat(s.queue[0]) {
        StraysOnlyAtLapEnd(cfg, s);
      }
    }
    OnlyItsTurnChanges(cfg, s, e, id, (t: Task) => !t.patrol);
  }

  lemma {:induction false} DeliveriesNeverStray(cfg: Config, s: System, es: seq<Event>, id: int)
    requires cfg.Valid() && Inv(cfg, s) && Legal(cfg, s, es) && id <= s.created && Delivery(s.queue, id)
    ensures NeverStrays(cfg, s, es, id) && Delivery(Run(cfg, s, es).queue, id)
    decreases |es|
  {
    if es != [] {
      StepKeeps(cfg, s, es[0]);
      DeliveryStep(cfg, s, es[0], id);
      CreatedGrows(cfg, s, es[0]);
      hide Inv, Delivery, StraysNow;
      DeliveriesNeverStray(cfg, Apply(cfg, s, es[0]), es[1..], id);
    }
  }

  lemma {:induction false} SpacedNeverStray(cfg: Config, s: System, es: seq<Event>, id: int)
    requires cfg.Valid() && Euclidean(cfg.graph) && WellSpaced(cfg) && Inv(cfg, s) && Legal(cfg, s, es)
    ensures NeverStrays(cfg, s, es, id)
    decreases |es|
  {
    if es != [] {
      StepKeeps(cfg, s, es[0]);
      if es[0].Poll? {
        NoLapLeak(cfg, s);
      }
      hide Inv, WellSpaced, Euclidean;
      SpacedNeverStray(cfg, Apply(cfg, s, es[0]), es[1..], id);
    }
  }

  /**
   Once a delivery has held its seat it never again sets out towards a robot that is coming the other
   way, whatever happens in between; on a map with well-spaced patrol vertices no patrol does either.
   */
  lemma HeldTasksNeverMeetHeadOn(cfg: Config, s: System, es: seq<Event>, id: int, j: nat)
    requires cfg.Valid() && Inv(cfg, s) && Legal(cfg, s, es)
    requires Delivery(s.queue, id) || (Euclidean(cfg.graph) && WellSpaced(cfg))
    requires id <= s.created && Holds(s.queue, s.ledger, id)
    requires var n := Run(cfg, s, es);
             0 < n.left <= |n.queue| && Pollable(cfg, n, n.queue[0]) && Requests(cfg, n) && n.queue[0].startSeq == id
             && 0 < j < |n.queue|
    ensures !HeadOn(HeadFate(cfg, Run(cfg, s, es)).task, Run(cfg, s, es).queue[j])
  {
    var n := Run(cfg, s, es);
    hide Inv, Legal, Run, Euclidean, WellSpaced;
    RunKeeps(cfg, s, es);
    if Delivery(s.queue, id) {
      DeliveriesNeverStray(cfg, s, es, id);
      if HeadFate(cfg, n).task.Here() != Seat(n.queue[0]) {
        StraysOnlyAtLapEnd(cfg, n);
      }
    } else {
      SpacedNeverStray(cfg, s, es, id);
      AsksFromItsSeat(cfg, n);
    }
    RunHolds(cfg, s, es, id);
    assert SeatOwned(n.ledger, n.queue[0]);
    HeldDeparturesAreSafe(cfg, n, j);
  }
}
