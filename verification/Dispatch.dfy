/** Choosing the robot for a delivery: the cheapest bid among robots that can finish the job. */
module Dispatch {
  import opened Names
  import opened Reservation
  import opened Navgraph

  datatype RobotInfo = RobotInfo(name: Name, x: real, y: real, battery: real, busy: bool)

  datatype Energy = Energy(drainPerMeter: real, drainPerAct: real, reserve: real)

  /** Battery percentage a job consumes, plus what must remain afterwards. */
  function Need(e: Energy, distance: real, armActions: int): real {
    distance * e.drainPerMeter + armActions as real * e.drainPerAct + e.reserve
  }

  /** What is left of a battery after the way and the arm's work. */
  function Left(e: Energy, distance: real, armActions: int, battery: real): real {
    battery - distance * e.drainPerMeter - armActions as real * e.drainPerAct
  }

  /** The gate: what is left is at least the reserve. */
  lemma GateIs(e: Energy, distance: real, armActions: int, battery: real)
    ensures battery >= Need(e, distance, armActions) <==> Left(e, distance, armActions, battery) >= e.reserve
  {
    var way, work := distance * e.drainPerMeter, armActions as real * e.drainPerAct;
    assert Need(e, distance, armActions) == way + work + e.reserve;
  }

  /** The length of a shortest route between two vertices, when there is one. */
  ghost function Fare(g: Graph, start: int, goal: int): Option<real>
    requires g.Valid()
  {
    if start == goal then Some(0.0)
    else if exists p :: |p| > 0 && g.Shortest(start, goal, -1, p) then
      var p :| |p| > 0 && g.Shortest(start, goal, -1, p);
      Some(g.Cost(p))
    else None
  }

  /** Every answer of the planner has the same cost, so the fare is what any of them costs. */
  lemma FareIs(g: Graph, start: int, goal: int, path: seq<int>)
    requires g.Valid() && g.Shortest(start, goal, -1, path)
    ensures start != goal ==> |path| != 1
    ensures start != goal && |path| >= 2 ==> Fare(g, start, goal) == Some(g.Cost(path))
    ensures start != goal && |path| < 2 ==> Fare(g, start, goal) == None
    ensures start == goal && g.Has(goal) ==> path == [goal] && g.Cost(path) == 0.0
  {
    hide Graph.Shortest, Graph.Valid, Graph.Cost;
    if start == goal {
      StaysPut(g, goal, path);
    } else {
      SameCost(g, start, goal, path, path);
      forall p | g.Shortest(start, goal, -1, p)
        ensures (p == [] <==> path == []) && g.InRange(p) && |p| != 1 && g.Cost(p) == g.Cost(path)
      {
        SameCost(g, start, goal, p, path);
      }
    }
  }

  /** The planner's answers differ neither in cost nor in whether there is one. */
  lemma SameCost(g: Graph, start: int, goal: int, p: seq<int>, q: seq<int>)
    requires g.Valid() && start != goal && g.Shortest(start, goal, -1, p) && g.Shortest(start, goal, -1, q)
    ensures g.InRange(p) && g.InRange(q) && (p == [] <==> q == []) && |p| != 1 && g.Cost(p) == g.Cost(q)
  {
    assert forall r :: g.Route(start, goal, -1, r) ==> g.Has(start) && g.Has(goal);
  }

  /** From a vertex to itself the planner answers with that vertex alone. */
  lemma StaysPut(g: Graph, v: int, path: seq<int>)
    requires g.Valid() && g.Shortest(v, v, -1, path)
    ensures g.Has(v) ==> path == [v] && g.Cost(path) == 0.0
  {
    if g.Has(v) {
      assert g.Route(v, v, -1, [v]);
      assert path[0] == path[|path| - 1];
    }
  }

  ghost predicate CanBid(g: Graph, e: Energy, goal: int, armActions: int, r: RobotInfo)
    requires g.Valid()
  {
    var fare := Fare(g, g.NearestVertex(r.x, r.y), goal);
    !r.busy && fare.Some? && r.battery >= Need(e, fare.value, armActions)
  }

  ghost function Bid(g: Graph, goal: int, r: RobotInfo): real
    requires g.Valid()
  {
    Fare(g, g.NearestVertex(r.x, r.y), goal).GetOr(0.0)
  }

  /** What one planner call says about one idle robot. */
  lemma Quote(g: Graph, e: Energy, goal: int, armActions: int, r: RobotInfo, path: seq<int>)
    requires g.Valid() && !r.busy && g.Shortest(g.NearestVertex(r.x, r.y), goal, -1, path)
    ensures var start := g.NearestVertex(r.x, r.y);
            if start != goal && |path| < 2 then !CanBid(g, e, goal, armActions, r)
            else g.InRange(path) && Bid(g, goal, r) == g.Cost(path)
                 && (CanBid(g, e, goal, armActions, r) <==> r.battery >= Need(e, g.Cost(path), armActions))
  {
    FareIs(g, g.NearestVertex(r.x, r.y), goal, path);
  }

  /** `i` is the first among the `n` first robots with the lowest admissible bid. */
  ghost predicate Wins(g: Graph, e: Energy, goal: int, armActions: int, robots: seq<RobotInfo>, n: nat, i: int)
    requires g.Valid() && n <= |robots|
  {
    && 0 <= i < n && CanBid(g, e, goal, armActions, robots[i])
    && (forall j | 0 <= j < n && CanBid(g, e, goal, armActions, robots[j]) ::
          Bid(g, goal, robots[i]) <= Bid(g, goal, robots[j])
          && (j < i ==> Bid(g, goal, robots[i]) < Bid(g, goal, robots[j])))
  }

  ghost predicate Winner(g: Graph, e: Energy, goal: int, armActions: int, robots: seq<RobotInfo>, winner: string)
    requires g.Valid()
  {
    if winner == "" then forall j | 0 <= j < |robots| :: !CanBid(g, e, goal, armActions, robots[j])
    else exists i :: Wins(g, e, goal, armActions, robots, |robots|, i) && robots[i].name == winner
  }

  class Auction {
    constructor () {}

    method Assign(goal: int, armActions: int, robots: seq<RobotInfo>, g: Graph, e: Energy) returns (winner: string)
      requires g.Valid()
      ensures Winner(g, e, goal, armActions, robots, winner)
    {
      hide Graph.Shortest, Graph.Valid, Graph.InRange, Graph.NearestVertex, Bid, CanBid, Need;
      winner := "";
      var best := 0.0;
      ghost var w := -1;
      for n := 0 to |robots|
        invariant w < 0 ==> winner == "" && forall j | 0 <= j < n :: !CanBid(g, e, goal, armActions, robots[j])
        invariant w >= 0 ==> Wins(g, e, goal, armActions, robots, n, w)
        invariant w >= 0 ==> robots[w].name == winner && best == Bid(g, goal, robots[w])
      {
        var r := robots[n];
        if r.busy {
          Idle(g, e, goal, armActions, r);
          continue;
        }
        var start := g.Nearest(r.x, r.y);
        var path := Dijkstra(g, start, goal);
        Quote(g, e, goal, armActions, r, path);
        if start != goal && |path| < 2 { continue; }
        var dist := g.PathCost(path);
        var need := Need(e, dist, armActions);
        if r.battery < need { continue; }
        if winner == "" || dist < best {
          best := dist;
          winner := r.name;
          w := n;
        }
      }
    }
  }

  lemma Idle(g: Graph, e: Energy, goal: int, armActions: int, r: RobotInfo)
    requires g.Valid() && r.busy
    ensures !CanBid(g, e, goal, armActions, r)
  {}
}
