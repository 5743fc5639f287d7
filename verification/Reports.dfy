/** What is reported about a delivery, from its submission on: COMPLETED at its goal or FAILED, and once at most. */
module Reports {
  import opened Names
  import opened Navgraph
  import opened Patrol
  import opened Fleet
  import opened Invariants
  import opened Runs
  import opened Histories
  import opened Interference
  import opened Submissions

  // ---------------------------------------------------------------- nobody is reported twice

  predicate Gone(q: seq<Task>, id: int) {
    forall i | 0 <= i < |q| :: q[i].startSeq != id
  }

  predicate NoTask(t: Task) { false }

  predicate FinalNote(s: System, n: Note) {
    n.startSeq <= s.created && Gone(s.queue, n.startSeq)
  }

  /** A task whose end has been reported is an earlier one, is no longer there, and has been reported once. */
  ghost predicate Reported(s: System) {
    && (forall k | 0 <= k < |s.notes| :: FinalNote(s, s.notes[k]))
    && (forall k, m | 0 <= k < m < |s.notes| :: s.notes[k].startSeq != s.notes[m].startSeq)
  }

  /** A report is the outcome of the head task's turn; no other event makes one. */
  lemma NotesAdded(cfg: Config, s: System, e: Event)
    requires cfg.Valid() && Enabled(cfg, s, e)
    ensures Apply(cfg, s, e).notes ==
            if e.Poll? && HeadFate(cfg, s).Ends? then
              s.notes + [Note(s.queue[0].robot, s.queue[0].startSeq, HeadFate(cfg, s).outcome)]
            else s.notes
  {
    hide Progress, Answered, PlanFits, SubmitFits;
  }

  /** A task that is gone does not come back. */
  lemma GoneStays(cfg: Config, s: System, e: Event, id: int)
    requires cfg.Valid() && Inv(cfg, s) && Enabled(cfg, s, e) && id <= s.created && Gone(s.queue, id)
    ensures Gone(Apply(cfg, s, e).queue, id)
  {
    assert AllOf(s.queue, id, NoTask);
    assert !Turn(cfg, s, e, id);
    hide Inv, Enabled, Apply;
    OnlyItsTurnChanges(cfg, s, e, id, NoTask);
  }

  /** A task that ends is gone. */
  lemma EndedGone(cfg: Config, s: System, e: Event)
    requires cfg.Valid() && Inv(cfg, s) && Enabled(cfg, s, e) && e.Poll? && HeadFate(cfg, s).Ends?
    ensures Gone(Apply(cfg, s, e).queue, s.queue[0].startSeq) && s.queue[0].startSeq <= s.created
  {
    TurnReplaces(cfg, s, e, s.queue[0].startSeq, NoTask);
    assert Registered(s, s.queue[0]);
  }

  lemma StepReports(cfg: Config, s: System, e: Event)
    requires cfg.Valid() && Inv(cfg, s) && Enabled(cfg, s, e) && Reported(s)
    ensures Reported(Apply(cfg, s, e))
  {
    var n := Apply(cfg, s, e);
    hide Inv, Apply, PlanFits, SubmitFits, Config.Valid;
    NotesAdded(cfg, s, e);
    CreatedGrows(cfg, s, e);
    if e.Poll? && HeadFate(cfg, s).Ends? {
      EndedGone(cfg, s, e);
    }
    hide Inv, Enabled, Apply, HeadFate;
    forall k | 0 <= k < |s.notes| ensures FinalNote(n, s.notes[k]) {
      assert FinalNote(s, s.notes[k]);
      GoneStays(cfg, s, e, s.notes[k].startSeq);
    }
  }

  lemma {:induction false} RunReports(cfg: Config, s: System, es: seq<Event>)
    requires cfg.Valid() && Inv(cfg, s) && Legal(cfg, s, es) && Reported(s)
    ensures Reported(Run(cfg, s, es))
    decreases |es|
  {
    if es != [] {
      StepKeeps(cfg, s, es[0]);
      StepReports(cfg, s, es[0]);
      hide Inv, Apply, Enabled, Reported;
      RunReports(cfg, Apply(cfg, s, es[0]), es[1..]);
    }
  }

  lemma InitialReported()
    ensures Reported(INITIAL)
  {}

  /** No task is ever reported twice, so none both COMPLETED and FAILED, and none while it goes on. */
  lemma ReachableReported(cfg: Config, s: System)
    requires cfg.Valid() && Reachable(cfg, s)
    ensures Reported(s)
  {
    hide Inv, Legal, Run, Reported, Config.Valid;
    InitialInv(cfg);
    InitialReported();
    var es :| Legal(cfg, INITIAL, es) && Run(cfg, INITIAL, es) == s;
    RunReports(cfg, INITIAL, es);
  }

  // ---------------------------------------------------------------- the life of one delivery

  function Delivers(r: Name, goal: int): Task -> bool {
    (t: Task) => t.robot == r && BoundFor(t, goal)
  }

  /** Every report about task `id` names robot `r`. */
  predicate ReportsName(notes: seq<Note>, id: int, r: Name) {
    forall k | 0 <= k < |notes| && notes[k].startSeq == id :: notes[k].robot == r
  }

  lemma HeadDelivers(cfg: Config, s: System, plan: seq<int>, r: Name, goal: int)
    requires cfg.Valid() && Inv(cfg, s) && Enabled(cfg, s, Poll(plan)) && HeadFate(cfg, s).Goes?
    requires Delivers(r, goal)(s.queue[0])
    ensures Delivers(r, goal)(HeadAfter(cfg, s, plan))
  {
    hide Inv, PlanFits, HeadFate, HeadAfter, Graph.Valid;
    HeadKeepsGoal(cfg, s, plan, goal);
    HeadSeq(cfg, s, plan);
  }

  lemma StepDelivers(cfg: Config, s: System, e: Event, id: int, r: Name, goal: int)
    requires cfg.Valid() && Inv(cfg, s) && Enabled(cfg, s, e) && id <= s.created
    requires AllOf(s.queue, id, Delivers(r, goal)) && ReportsName(s.notes, id, r)
    ensures AllOf(Apply(cfg, s, e).queue, id, Delivers(r, goal)) && ReportsName(Apply(cfg, s, e).notes, id, r)
  {
    NotesAdded(cfg, s, e);
    if Turn(cfg, s, e, id) && HeadFate(cfg, s).Goes? {
      HeadDelivers(cfg, s, e.plan, r, goal);
    }
    OnlyItsTurnChanges(cfg, s, e, id, Delivers(r, goal));
  }

  /** Over any run, however often it is rerouted, a delivery keeps its robot and the goal it was submitted for. */
  lemma {:induction false} RunDelivers(cfg: Config, s: System, es: seq<Event>, id: int, r: Name, goal: int)
    requires cfg.Valid() && Inv(cfg, s) && Legal(cfg, s, es) && id <= s.created
    requires AllOf(s.queue, id, Delivers(r, goal)) && ReportsName(s.notes, id, r)
    ensures AllOf(Run(cfg, s, es).queue, id, Delivers(r, goal)) && ReportsName(Run(cfg, s, es).notes, id, r)
    decreases |es|
  {
    if es != [] {
      StepKeeps(cfg, s, es[0]);
      StepDelivers(cfg, s, es[0], id, r, goal);
      CreatedGrows(cfg, s, es[0]);
      hide Inv, Apply, Enabled, AllOf, ReportsName;
      RunDelivers(cfg, Apply(cfg, s, es[0]), es[1..], id, r, goal);
    }
  }

  // ---------------------------------------------------------------- how a delivery can end

  predicate Alive(q: seq<Task>, id: int, r: Name) {
    exists i :: 0 <= i < |q| && q[i].startSeq == id && q[i].robot == r
  }

  /** The end of task `id` of robot `r` has been published. */
  predicate Settled(notes: seq<Note>, id: int, r: Name) {
    exists k :: 0 <= k < |notes| && notes[k].startSeq == id && notes[k].robot == r
  }

  /** The event cancels whatever `r` is doing: another mode than CHARGE, or a submission accepted for `r`. */
  ghost predicate CancelsNow(cfg: Config, s: System, e: Event, r: Name)
    requires cfg.Valid() && Enabled(cfg, s, e)
  {
    match e
    case SetMode(name, mode) => name == r && mode != Charging
    case Submit(goal, armActions, forced, winner, plan) =>
      Judged(cfg, s, goal, armActions, forced, winner, plan) == Accepted && Chosen(forced, winner) == r
    case _ => false
  }

  ghost predicate CancelledDuring(cfg: Config, s: System, es: seq<Event>, r: Name)
    requires cfg.Valid() && Legal(cfg, s, es)
    decreases |es|
  {
    es != [] && (CancelsNow(cfg, s, es[0], r) || CancelledDuring(cfg, Apply(cfg, s, es[0]), es[1..], r))
  }

  lemma AliveWithout(q: seq<Task>, id: int, r: Name, other: Name)
    requires Alive(q, id, r) && other != r
    ensures Alive(Without(q, other), id, r)
  {
    var i :| 0 <= i < |q| && q[i].startSeq == id && q[i].robot == r;
    WithoutOthers(q, other);
    assert q[i] in Without(q, other);
  }

  lemma AliveAfterPoll(cfg: Config, s: System, plan: seq<int>, id: int, r: Name)
    requires cfg.Valid() && Inv(cfg, s) && Enabled(cfg, s, Poll(plan)) && Alive(s.queue, id, r)
    ensures Alive(Polled(cfg, s, plan).queue, id, r) || Settled(Apply(cfg, s, Poll(plan)).notes, id, r)
  {
    var n := Polled(cfg, s, plan);
    NotesAdded(cfg, s, Poll(plan));
    PolledQueue(cfg, s, plan);
    var i :| 0 <= i < |s.queue| && s.queue[i].startSeq == id && s.queue[i].robot == r;
    if i > 0 {
      assert n.queue[i - 1] == s.queue[i];
    } else if HeadFate(cfg, s).Goes? {
      HeadSeq(cfg, s, plan);
      assert n.queue[|n.queue| - 1] == HeadAfter(cfg, s, plan);
    } else {
      assert Apply(cfg, s, Poll(plan)).notes[|s.notes|].startSeq == id;
    }
  }

  lemma AliveAfterCancel(s: System, id: int, r: Name, other: Name)
    requires Alive(s.queue, id, r) && other != r
    ensures Alive(Cancelled(s, other).queue, id, r)
  {
    AliveWithout(s.queue, id, r, other);
  }

  lemma AliveAfterLaunch(s: System, t: Task, id: int, r: Name)
    requires Alive(s.queue, id, r) && |t.path| > 0
    ensures Alive(Launched(s, t).queue, id, r)
  {
    var i :| 0 <= i < |s.queue| && s.queue[i].startSeq == id && s.queue[i].robot == r;
    assert Launched(s, t).queue[i] == s.queue[i];
  }

  lemma AliveAfterSubmit(cfg: Config, s: System, e: Event, id: int, r: Name)
    requires cfg.Valid() && Enabled(cfg, s, e) && e.Submit? && Alive(s.queue, id, r) && !CancelsNow(cfg, s, e, r)
    ensures Alive(Apply(cfg, s, e).queue, id, r)
  {
    hide Apply, Enabled, Alive, Cancelled, Launched, SubmitFits, StartOf, Graph.Valid, ClosedWalk;
    SubmitEnabled(cfg, s, e);
    if Judged(cfg, s, e.goal, e.armActions, e.forced, e.winner, e.plan) != Accepted {
      assert Apply(cfg, s, e) == s;
    } else {
      var other: Name := Chosen(e.forced, e.winner);
      AliveAfterCancel(s, id, r, other);
      var c := if s.robots[other].busy then Cancelled(s, other) else s;
      var t := NewTask(other, TaskPath(StartOf(cfg, s, other), e.goal, e.plan), false, s.created + 1);
      assert Apply(cfg, s, e) == Launched(c, t);
      AliveAfterLaunch(c, t, id, r);
    }
  }

  lemma StepLives(cfg: Config, s: System, e: Event, id: int, r: Name)
    requires cfg.Valid() && Inv(cfg, s) && Enabled(cfg, s, e) && Alive(s.queue, id, r) && !CancelsNow(cfg, s, e, r)
    ensures Alive(Apply(cfg, s, e).queue, id, r) || Settled(Apply(cfg, s, e).notes, id, r)
  {
    hide Inv, Alive;
    match e
    case Observe(_, _, _) =>
    case SetBattery(_, _) =>
    case SetMode(name, mode) =>
      if mode != Charging {
        AliveAfterCancel(s, id, r, name);
      }
    case Submit(_, _, _, _, _) => AliveAfterSubmit(cfg, s, e, id, r);
    case StartPatrol(name) =>
      AliveAfterLaunch(s, NewTask(name, Lap(cfg.graph, cfg.route, s.robots[name].x, s.robots[name].y, -1), true,
                                  s.created + 1), id, r);
    case Begin =>
    case Poll(plan) => AliveAfterPoll(cfg, s, plan, id, r);
    case End =>
  }

  lemma SettledStays(cfg: Config, s: System, e: Event, id: int, r: Name)
    requires cfg.Valid() && Enabled(cfg, s, e) && Settled(s.notes, id, r)
    ensures Settled(Apply(cfg, s, e).notes, id, r)
  {
    NotesAdded(cfg, s, e);
    var k :| 0 <= k < |s.notes| && s.notes[k].startSeq == id && s.notes[k].robot == r;
    assert Apply(cfg, s, e).notes[k] == s.notes[k];
  }

  /** A task goes on until its end is reported, unless it is cancelled for another submission or by a mode change. */
  lemma {:induction false} RunLives(cfg: Config, s: System, es: seq<Event>, id: int, r: Name)
    requires cfg.Valid() && Inv(cfg, s) && Legal(cfg, s, es)
    requires Alive(s.queue, id, r) || Settled(s.notes, id, r)
    ensures var n := Run(cfg, s, es);
            Alive(n.queue, id, r) || Settled(n.notes, id, r) || CancelledDuring(cfg, s, es, r)
    decreases |es|
  {
    if es != [] && !CancelsNow(cfg, s, es[0], r) {
      StepKeeps(cfg, s, es[0]);
      if Settled(s.notes, id, r) {
        SettledStays(cfg, s, es[0], id, r);
      } else {
        StepLives(cfg, s, es[0], id, r);
      }
      hide Inv, Apply, Enabled, Alive, Settled, CancelsNow;
      RunLives(cfg, Apply(cfg, s, es[0]), es[1..], id, r);
    }
  }

  // ---------------------------------------------------------------- from submission to report

  lemma NumbersGiven(cfg: Config, s: System)
    requires cfg.Valid() && Inv(cfg, s)
    ensures forall t | t in s.queue :: t.startSeq <= s.created
  {
    forall t | t in s.queue ensures t.startSeq <= s.created {
      var i :| 0 <= i < |s.queue| && s.queue[i] == t;
      assert Registered(s, s.queue[i]);
    }
  }

  /** What a newly accepted delivery looks like, before anything else happens. */
  lemma Fresh(cfg: Config, s: System, e: Event)
    requires cfg.Valid() && Inv(cfg, s) && Reported(s) && Enabled(cfg, s, e) && e.Submit?
    requires Judged(cfg, s, e.goal, e.armActions, e.forced, e.winner, e.plan) == Accepted
    ensures var n, r := Apply(cfg, s, e), Chosen(e.forced, e.winner);
            && r in s.robots && Inv(cfg, n) && Reported(n) && Alive(n.queue, n.created, r)
            && AllOf(n.queue, n.created, Delivers(r, e.goal))
            && forall k | 0 <= k < |n.notes| :: n.notes[k].startSeq != n.created
  {
    hide Inv, Apply, Enabled, Judged, Frees, StartOf, Graph.Valid, ClosedWalk;
    var n, r := Apply(cfg, s, e), Chosen(e.forced, e.winner);
    SubmitReplaces(cfg, s, e);
    StepKeeps(cfg, s, e);
    StepReports(cfg, s, e);
    NotesAdded(cfg, s, e);
    NumbersGiven(cfg, s);
    assert n.queue[|n.queue| - 1].startSeq == n.created;
    assert forall i | 0 <= i < |n.queue| :: n.queue[i] in n.queue;
    forall k | 0 <= k < |n.notes| ensures n.notes[k].startSeq != n.created {
      assert FinalNote(s, s.notes[k]);
    }
  }

  /**
   From an accepted submission on, over every run: the delivery keeps its robot and its goal as long as it
   exists; it goes on until its end is reported or it is cancelled; its end is reported at most once, for its
   robot, and then it is gone; and if it is reported COMPLETED, there was a turn in which its robot, told to
   be moving, stood within the arrival radius of the very goal that was submitted.
   */
  lemma DeliveryLife(cfg: Config, s: System, e: Event, es: seq<Event>)
    requires cfg.Valid() && Reachable(cfg, s) && Enabled(cfg, s, e) && e.Submit?
    requires Judged(cfg, s, e.goal, e.armActions, e.forced, e.winner, e.plan) == Accepted
    requires Legal(cfg, Apply(cfg, s, e), es)
    ensures var n, m := Apply(cfg, s, e), Run(cfg, Apply(cfg, s, e), es);
            var r, id := Chosen(e.forced, e.winner), n.created;
            && r in s.robots && Alive(n.queue, id, r)
            && AllOf(m.queue, id, Delivers(r, e.goal))
            && (Alive(m.queue, id, r) || Settled(m.notes, id, r) || CancelledDuring(cfg, n, es, r))
            && (forall k | 0 <= k < |m.notes| && m.notes[k].startSeq == id ::
                  && m.notes[k].robot == r && Gone(m.queue, id)
                  && (m.notes[k].outcome == Completed ==> AtGoalDuring(cfg, n, es, r, id, e.goal)))
            && (forall k, l | 0 <= k < l < |m.notes| && m.notes[k].startSeq == id :: m.notes[l].startSeq != id)
  {
    var n, m := Apply(cfg, s, e), Run(cfg, Apply(cfg, s, e), es);
    var r: Name, id := Chosen(e.forced, e.winner), n.created;
    hide Inv, Apply, Enabled, Run, Legal, Reachable, Judged, CancelledDuring, Alive, AtGoalDuring, Config.Valid;
    ReachableInv(cfg, s);
    ReachableReported(cfg, s);
    Fresh(cfg, s, e);
    RunDelivers(cfg, n, es, id, r, e.goal);
    RunLives(cfg, n, es, id, r);
    RunReports(cfg, n, es);
    forall k | 0 <= k < |m.notes| && m.notes[k].startSeq == id
      ensures Gone(m.queue, id) && (m.notes[k].outcome == Completed ==> AtGoalDuring(cfg, n, es, r, id, e.goal))
    {
      assert FinalNote(m, m.notes[k]);
      if m.notes[k].outcome == Completed {
        CompletedOnlyAtGoal(cfg, n, es, r, id, e.goal);
      }
    }
  }

  // ---------------------------------------------------------------- giving up, from what can be observed

  /** Where the robot was in the task's latest turn, and for how many turns it had not moved although told to. */
  datatype Track = Track(x: real, y: real, still: nat)

  /** The track after one more turn of the task: less than 2 cm from the position before counts as no movement. */
  ghost function Sighting(cfg: Config, s: System, e: Event, id: int, k: Track): Track
    requires cfg.Valid() && Enabled(cfg, s, e)
  {
    if !Turn(cfg, s, e, id) then k
    else
      var r := s.robots[s.queue[0].robot];
      var still := s.queue[0].moving && cfg.graph.hypot(r.x - k.x, r.y - k.y) < 0.02;
      Track(r.x, r.y, if still then k.still + 1 else 0)
  }

  ghost function Tracked(cfg: Config, s: System, es: seq<Event>, id: int, k: Track): Track
    requires cfg.Valid() && Legal(cfg, s, es)
    decreases |es|
  {
    if es == [] then k else Tracked(cfg, Apply(cfg, s, es[0]), es[1..], id, Sighting(cfg, s, es[0], id, k))
  }

  function Matches(k: Track): Task -> bool {
    (t: Task) => t.lastX == k.x && t.lastY == k.y && t.noMove == k.still
  }

  lemma TurnMatches(cfg: Config, s: System, e: Event, id: int, k: Track)
    requires cfg.Valid() && Inv(cfg, s) && Enabled(cfg, s, e) && Turn(cfg, s, e, id) && Matches(k)(s.queue[0])
    ensures HeadFate(cfg, s).Goes? ==> Matches(Sighting(cfg, s, e, id, k))(HeadAfter(cfg, s, e.plan))
    ensures HeadFate(cfg, s).Ends? && HeadFate(cfg, s).outcome == Failed <==>
            Sighting(cfg, s, e, id, k).still > STUCK_TICKS
  {
    hide Inv, PlanFits, Lap, Resolved, Answered, StoppedAhead;
    if HeadFate(cfg, s).Goes? && Requests(cfg, s) {
      var t := HeadFate(cfg, s).task;
      ResolvedKeeps(cfg, t, Answered(s, t), StoppedAhead(s, t), e.plan);
    }
  }

  lemma StepMatches(cfg: Config, s: System, e: Event, id: int, k: Track)
    requires cfg.Valid() && Inv(cfg, s) && Enabled(cfg, s, e) && id <= s.created && AllOf(s.queue, id, Matches(k))
    ensures AllOf(Apply(cfg, s, e).queue, id, Matches(Sighting(cfg, s, e, id, k)))
  {
    if Turn(cfg, s, e, id) {
      TurnMatches(cfg, s, e, id, k);
      hide Inv, Apply, Enabled, Sighting, Matches;
      TurnReplaces(cfg, s, e, id, Matches(Sighting(cfg, s, e, id, k)));
    } else {
      hide Inv, Apply, Enabled, Matches;
      OnlyItsTurnChanges(cfg, s, e, id, Matches(k));
    }
  }

  /** The program's record of a task is its track, over every run. */
  lemma {:induction false} RunMatches(cfg: Config, s: System, es: seq<Event>, id: int, k: Track)
    requires cfg.Valid() && Inv(cfg, s) && Legal(cfg, s, es) && id <= s.created && AllOf(s.queue, id, Matches(k))
    ensures AllOf(Run(cfg, s, es).queue, id, Matches(Tracked(cfg, s, es, id, k)))
    decreases |es|
  {
    if es != [] {
      StepKeeps(cfg, s, es[0]);
      StepMatches(cfg, s, es[0], id, k);
      CreatedGrows(cfg, s, es[0]);
      hide Inv, Apply, Enabled, AllOf, Matches, Sighting;
      RunMatches(cfg, Apply(cfg, s, es[0]), es[1..], id, Sighting(cfg, s, es[0], id, k));
    }
  }

  /**
   FAILED is published for a task exactly in the turn in which, by its track from its creation on, its robot has
   not moved for more than 100 turns in a row although told to. One turn with a displacement, or in which
   it was not told to move, starts the count again.
   */
  lemma FailedExactlyWhenStill(cfg: Config, s: System, es: seq<Event>, e: Event, id: int)
    requires cfg.Valid() && Inv(cfg, s) && Legal(cfg, s, es) && Enabled(cfg, Run(cfg, s, es), e)
    requires id <= s.created && AllOf(s.queue, id, Matches(Track(0.0, 0.0, 0)))
    ensures var n, k := Run(cfg, s, es), Tracked(cfg, s, es, id, Track(0.0, 0.0, 0));
            (Turn(cfg, n, e, id) && HeadFate(cfg, n).Ends? && HeadFate(cfg, n).outcome == Failed) <==>
            (Turn(cfg, n, e, id) && Sighting(cfg, n, e, id, k).still > 100)
  {
    var n, k := Run(cfg, s, es), Tracked(cfg, s, es, id, Track(0.0, 0.0, 0));
    RunMatches(cfg, s, es, id, Track(0.0, 0.0, 0));
    RunKeeps(cfg, s, es);
    hide Inv, Run, Tracked, Legal, Sighting, Matches, HeadFate;
    if Turn(cfg, n, e, id) {
      assert Matches(k)(n.queue[0]);
      TurnMatches(cfg, n, e, id, k);
    }
  }

  /** A new task's track begins at nothing. */
  lemma FreshTrack(cfg: Config, s: System, e: Event)
    requires cfg.Valid() && Inv(cfg, s) && Enabled(cfg, s, e) && (e.Submit? || e.StartPatrol?)
    ensures AllOf(Apply(cfg, s, e).queue, s.created + 1, Matches(Track(0.0, 0.0, 0)))
  {
    NumbersGiven(cfg, s);
    if e.StartPatrol? {
      hide Inv, Lap;
    } else {
      hide Inv, Apply, Enabled, SubmitFits, StartOf, Without, ReleasedTasks, Graph.Valid;
      SubmitEnabled(cfg, s, e);
      if Judged(cfg, s, e.goal, e.armActions, e.forced, e.winner, e.plan) == Accepted {
        WithoutOthers(s.queue, Chosen(e.forced, e.winner));
      }
    }
  }
}
