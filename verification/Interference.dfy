/** How much other robots can disturb a task: detours between arrivals, and standing still. */
module Interference {
  import opened Reservation
  import opened Fleet
  import opened Invariants
  import opened Runs
  import opened Histories

  function Spent(n: nat): Task -> bool {
    (t: Task) => t.reroutes >= n
  }

  function Still(n: nat): Task -> bool {
    (t: Task) => t.noMove >= n
  }

  /** Task `id` is sent around a deadlock in this event. */
  ghost predicate DetourNow(cfg: Config, s: System, e: Event, id: int)
    requires cfg.Valid() && Enabled(cfg, s, e)
  {
    Turn(cfg, s, e, id) && Requests(cfg, s) &&
    var t := HeadFate(cfg, s).task;
    Answered(s, t) == Deadlock && Detours(cfg, t, Deadlock, StoppedAhead(s, t), e.plan)
  }

  /** Task `id` reaches its next node in this event. */
  ghost predicate ArrivalNow(cfg: Config, s: System, e: Event, id: int)
    requires cfg.Valid() && Enabled(cfg, s, e)
  {
    Turn(cfg, s, e, id) && AtTarget(cfg, s.robots[s.queue[0].robot], s.queue[0])
  }

  ghost predicate NoArrival(cfg: Config, s: System, es: seq<Event>, id: int)
    requires cfg.Valid() && Legal(cfg, s, es)
    decreases |es|
  {
    es == [] || (!ArrivalNow(cfg, s, es[0], id) && NoArrival(cfg, Apply(cfg, s, es[0]), es[1..], id))
  }

  ghost function DetourCount(cfg: Config, s: System, es: seq<Event>, id: int): nat
    requires cfg.Valid() && Legal(cfg, s, es)
    decreases |es|
  {
    if es == [] then 0
    else (if DetourNow(cfg, s, es[0], id) then 1 else 0) + DetourCount(cfg, Apply(cfg, s, es[0]), es[1..], id)
  }

  lemma TurnCountsDetours(cfg: Config, s: System, e: Event, id: int)
    requires cfg.Valid() && Inv(cfg, s) && Enabled(cfg, s, e) && Turn(cfg, s, e, id) && !ArrivalNow(cfg, s, e, id)
    ensures DetourNow(cfg, s, e, id) ==> HeadFate(cfg, s).Goes? && s.queue[0].reroutes < MAX_REROUTES
    ensures HeadFate(cfg, s).Goes? ==>
              HeadAfter(cfg, s, e.plan).reroutes == s.queue[0].reroutes + (if DetourNow(cfg, s, e, id) then 1 else 0)
  {
    HeadPollable(cfg, s);
    if HeadFate(cfg, s).Goes? {
      assert HeadFate(cfg, s).task.reroutes == s.queue[0].reroutes;
      hide Inv, Progress;
    }
  }

  /** Between two arrivals a task is sent around deadlocks at most MAX_REROUTES times. */
  lemma {:induction false} DetoursBounded(cfg: Config, s: System, es: seq<Event>, id: int, spent: nat)
    requires cfg.Valid() && Inv(cfg, s) && Legal(cfg, s, es) && id <= s.created && NoArrival(cfg, s, es, id)
    requires spent <= MAX_REROUTES && AllOf(s.queue, id, Spent(spent))
    ensures spent + DetourCount(cfg, s, es, id) <= MAX_REROUTES
    decreases |es|
  {
    if es != [] {
      var e, n := es[0], Apply(cfg, s, es[0]);
      var now := spent + if DetourNow(cfg, s, e, id) then 1 else 0;
      DetourStep(cfg, s, e, id, spent);
      StepKeeps(cfg, s, e);
      CreatedGrows(cfg, s, e);
      hide Inv;
      DetoursBounded(cfg, n, es[1..], id, now);
    }
  }

  lemma DetourStep(cfg: Config, s: System, e: Event, id: int, spent: nat)
    requires cfg.Valid() && Inv(cfg, s) && Enabled(cfg, s, e) && id <= s.created && !ArrivalNow(cfg, s, e, id)
    requires spent <= MAX_REROUTES && AllOf(s.queue, id, Spent(spent))
    ensures var now := spent + if DetourNow(cfg, s, e, id) then 1 else 0;
            now <= MAX_REROUTES && AllOf(Apply(cfg, s, e).queue, id, Spent(now))
  {
    var now := spent + if DetourNow(cfg, s, e, id) then 1 else 0;
    if Turn(cfg, s, e, id) {
      assert s.queue[0].reroutes >= spent;
      TurnCountsDetours(cfg, s, e, id);
      TurnReplaces(cfg, s, e, id, Spent(now));
    } else {
      OnlyItsTurnChanges(cfg, s, e, id, Spent(now));
    }
  }

  /** In its own turn the task becomes its successor or ends; no other task has its number. */
  lemma TurnReplaces(cfg: Config, s: System, e: Event, id: int, p: Task -> bool)
    requires cfg.Valid() && Inv(cfg, s) && Enabled(cfg, s, e) && Turn(cfg, s, e, id)
    requires HeadFate(cfg, s).Goes? ==> p(HeadAfter(cfg, s, e.plan))
    ensures AllOf(Apply(cfg, s, e).queue, id, p)
  {
    hide Polled, HeadAfter, HeadFate, PlanFits, Pollable;
    var q := Apply(cfg, s, e).queue;
    PolledQueue(cfg, s, e.plan);
    hide Apply;
    forall i | 0 <= i < |q| && q[i].startSeq == id ensures p(q[i]) {
      if i < |s.queue| - 1 {
        SeqsDiffer(s, 0, i + 1);
      }
    }
  }

  // ---------------------------------------------------------------- a moving robot that does not move

  /** If this is the turn of task `id`, its robot was told to move and has not moved since the last turn. */
  ghost predicate StalledIfPolled(cfg: Config, s: System, e: Event, id: int)
    requires cfg.Valid() && Enabled(cfg, s, e)
  {
    Turn(cfg, s, e, id) ==> Unmoved(cfg, s.robots[s.queue[0].robot], s.queue[0])
  }

  ghost predicate StalledThroughout(cfg: Config, s: System, es: seq<Event>, id: int)
    requires cfg.Valid() && Legal(cfg, s, es)
    decreases |es|
  {
    es == [] || (StalledIfPolled(cfg, s, es[0], id) && StalledThroughout(cfg, Apply(cfg, s, es[0]), es[1..], id))
  }

  ghost function TurnCount(cfg: Config, s: System, es: seq<Event>, id: int): nat
    requires cfg.Valid() && Legal(cfg, s, es)
    decreases |es|
  {
    if es == [] then 0
    else (if Turn(cfg, s, es[0], id) then 1 else 0) + TurnCount(cfg, Apply(cfg, s, es[0]), es[1..], id)
  }

  lemma TurnCountsStall(cfg: Config, s: System, e: Event, id: int)
    requires cfg.Valid() && Inv(cfg, s) && Enabled(cfg, s, e) && Turn(cfg, s, e, id) && StalledIfPolled(cfg, s, e, id)
    ensures HeadFate(cfg, s).Goes? ==> HeadAfter(cfg, s, e.plan).noMove == s.queue[0].noMove + 1
  {
    hide Inv, PlanFits, HeadAfter;
    if HeadFate(cfg, s).Goes? {
      HeadSeq(cfg, s, e.plan);
    }
  }

  lemma StallStep(cfg: Config, s: System, e: Event, id: int, n: nat)
    requires cfg.Valid() && Inv(cfg, s) && Enabled(cfg, s, e) && id <= s.created && StalledIfPolled(cfg, s, e, id)
    requires AllOf(s.queue, id, Still(n))
    ensures AllOf(Apply(cfg, s, e).queue, id, Still(n + if Turn(cfg, s, e, id) then 1 else 0))
  {
    if Turn(cfg, s, e, id) {
      assert s.queue[0].noMove >= n;
      TurnCountsStall(cfg, s, e, id);
      TurnReplaces(cfg, s, e, id, Still(n + 1));
    } else {
      OnlyItsTurnChanges(cfg, s, e, id, Still(n));
    }
  }

  /** The first event of such a run, and what is left of it. */
  lemma StallsOnce(cfg: Config, s: System, es: seq<Event>, id: int, n: nat)
    requires cfg.Valid() && Inv(cfg, s) && Legal(cfg, s, es) && id <= s.created && StalledThroughout(cfg, s, es, id)
    requires es != [] && AllOf(s.queue, id, Still(n))
    ensures var e, t := es[0], Apply(cfg, s, es[0]);
            var now := if Turn(cfg, s, e, id) then 1 else 0;
            && Inv(cfg, t) && Legal(cfg, t, es[1..]) && id <= t.created && StalledThroughout(cfg, t, es[1..], id)
            && AllOf(t.queue, id, Still(n + now)) && Run(cfg, s, es) == Run(cfg, t, es[1..])
            && TurnCount(cfg, s, es, id) == now + TurnCount(cfg, t, es[1..], id)
  {
    StallStep(cfg, s, es[0], id, n);
    StepKeeps(cfg, s, es[0]);
    CreatedGrows(cfg, s, es[0]);
    hide Inv, Enabled, Apply, AllOf, Turn, StalledIfPolled;
  }

  lemma {:induction false} StallsAddUp(cfg: Config, s: System, es: seq<Event>, id: int, n: nat)
    requires cfg.Valid() && Inv(cfg, s) && Legal(cfg, s, es) && id <= s.created && StalledThroughout(cfg, s, es, id)
    requires AllOf(s.queue, id, Still(n))
    ensures AllOf(Run(cfg, s, es).queue, id, Still(n + TurnCount(cfg, s, es, id)))
    decreases |es|
  {
    hide Inv, Enabled, Apply, Turn, AllOf, Still, StalledIfPolled, Config.Valid;
    if es != [] {
      StallsOnce(cfg, s, es, id, n);
      var t, now := Apply(cfg, s, es[0]), n + if Turn(cfg, s, es[0], id) then 1 else 0;
      hide Run, Legal, StalledThroughout, TurnCount;
      StallsAddUp(cfg, t, es[1..], id, now);
      assert n + TurnCount(cfg, s, es, id) == now + TurnCount(cfg, t, es[1..], id);
    }
  }

  /** After STUCK_TICKS + 1 turns without displacement a task that was told to move no longer exists. */
  lemma StalledTasksEnd(cfg: Config, s: System, es: seq<Event>, id: int)
    requires cfg.Valid() && Inv(cfg, s) && Legal(cfg, s, es) && id <= s.created
    requires StalledThroughout(cfg, s, es, id) && TurnCount(cfg, s, es, id) > STUCK_TICKS
    ensures forall i | 0 <= i < |Run(cfg, s, es).queue| :: Run(cfg, s, es).queue[i].startSeq != id
  {
    hide Inv, Run, Legal, StalledThroughout, TurnCount;
    StallsAddUp(cfg, s, es, id, 0);
    RunKeeps(cfg, s, es);
    TooStill(cfg, Run(cfg, s, es), id, TurnCount(cfg, s, es, id));
  }

  lemma TooStill(cfg: Config, s: System, id: int, n: nat)
    requires cfg.Valid() && Inv(cfg, s) && AllOf(s.queue, id, Still(n)) && n > STUCK_TICKS
    ensures forall i | 0 <= i < |s.queue| :: s.queue[i].startSeq != id
  {
    forall i | 0 <= i < |s.queue| ensures s.queue[i].startSeq != id {
      assert Bounded(s.queue[i]);
    }
  }

  // ---------------------------------------------------------------- patience

  /** In its turn in this event, if it has one, task `id` is told to wait for a robot that is not stopped. */
  ghost predicate WaitsIfPolled(cfg: Config, s: System, e: Event, id: int)
    requires cfg.Valid() && Enabled(cfg, s, e)
  {
    Turn(cfg, s, e, id) ==>
      Requests(cfg, s) && Answered(s, HeadFate(cfg, s).task) == Wait && !StoppedAhead(s, HeadFate(cfg, s).task)
      && !s.queue[0].moving
  }

  /** The patience of task `id` ends here: it looks for a way around if its detour has a goal at all. */
  ghost predicate LooksAround(cfg: Config, s: System, e: Event, id: int)
    requires cfg.Valid() && Enabled(cfg, s, e)
  {
    Turn(cfg, s, e, id) && Requests(cfg, s) && !StoppedAhead(s, HeadFate(cfg, s).task) &&
    var t := HeadFate(cfg, s).task;
    Answered(s, t) == Wait
    && (Searches(cfg, t, Wait, false)
        || (DetourGoal(cfg, t, false) < 0 && t.waitTicks + 1 >= REROUTE_WAIT_TICKS))
  }

  ghost predicate WaitsPatiently(cfg: Config, s: System, es: seq<Event>, id: int)
    requires cfg.Valid() && Legal(cfg, s, es)
    decreases |es|
  {
    es == [] || (WaitsIfPolled(cfg, s, es[0], id) && !LooksAround(cfg, s, es[0], id)
                 && WaitsPatiently(cfg, Apply(cfg, s, es[0]), es[1..], id))
  }

  function Waited(n: nat): Task -> bool {
    (t: Task) => t.waitTicks >= n
  }

  lemma TurnCountsWait(cfg: Config, s: System, e: Event, id: int)
    requires cfg.Valid() && Inv(cfg, s) && Enabled(cfg, s, e) && Turn(cfg, s, e, id)
    requires WaitsIfPolled(cfg, s, e, id) && !LooksAround(cfg, s, e, id)
    ensures HeadFate(cfg, s).Goes?
    ensures HeadAfter(cfg, s, e.plan).waitTicks == s.queue[0].waitTicks + 1 < REROUTE_WAIT_TICKS
  {
    HeadPollable(cfg, s);
    assert HeadFate(cfg, s).task.waitTicks == s.queue[0].waitTicks;
    hide Inv, Progress, Pollable, PlanFits;
  }

  lemma WaitStep(cfg: Config, s: System, e: Event, id: int, n: nat)
    requires cfg.Valid() && Inv(cfg, s) && Enabled(cfg, s, e) && id <= s.created && n < REROUTE_WAIT_TICKS
    requires WaitsIfPolled(cfg, s, e, id) && !LooksAround(cfg, s, e, id) && AllOf(s.queue, id, Waited(n))
    ensures var now := n + if Turn(cfg, s, e, id) then 1 else 0;
            now < REROUTE_WAIT_TICKS && AllOf(Apply(cfg, s, e).queue, id, Waited(now))
  {
    if Turn(cfg, s, e, id) {
      assert s.queue[0].waitTicks >= n;
      TurnCountsWait(cfg, s, e, id);
      TurnReplaces(cfg, s, e, id, Waited(n + 1));
    } else {
      OnlyItsTurnChanges(cfg, s, e, id, Waited(n));
    }
  }

  /** A task that only waits, without looking for a way around, has fewer than REROUTE_WAIT_TICKS turns. */
  lemma {:induction false} PatienceRunsOut(cfg: Config, s: System, es: seq<Event>, id: int, n: nat)
    requires cfg.Valid() && Inv(cfg, s) && Legal(cfg, s, es) && id <= s.created && WaitsPatiently(cfg, s, es, id)
    requires n < REROUTE_WAIT_TICKS && AllOf(s.queue, id, Waited(n))
    ensures n + TurnCount(cfg, s, es, id) < REROUTE_WAIT_TICKS
    decreases |es|
  {
    if es != [] {
      var e := es[0];
      hide Inv, Enabled, Apply;
      WaitStep(cfg, s, e, id, n);
      StepKeeps(cfg, s, e);
      CreatedGrows(cfg, s, e);
      PatienceRunsOut(cfg, Apply(cfg, s, e), es[1..], id, n + if Turn(cfg, s, e, id) then 1 else 0);
    }
  }

  /** A task that is given up frees the node it was moving to and the one it came from. */
  lemma FailedTasksRelease(cfg: Config, s: System, plan: seq<int>)
    requires cfg.Valid() && Inv(cfg, s) && Enabled(cfg, s, Poll(plan))
    requires HeadFate(cfg, s).Ends? && HeadFate(cfg, s).outcome == Failed
    ensures var l, t := Polled(cfg, s, plan).ledger, s.queue[0];
            t.moving && !Owns(l, t.robot, t.Target()) && !Owns(l, t.robot, t.Here())
    ensures !Polled(cfg, s, plan).robots[s.queue[0].robot].busy
  {
    HeadPollable(cfg, s);
    var t := s.queue[0];
    assert HeadFate(cfg, s).nodes == [t.Target(), t.Here()];
    ReleasedAllVacates(s.ledger, t.robot, [t.Target(), t.Here()]);
  }
}
