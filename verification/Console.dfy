/** The console's graph editor and its bid calculator, next to the planner they have to agree with. */
module Console {
  import opened Reservation
  import opened Navgraph
  import opened Dispatch

  type Lane = (int, int)

  /** The targets of a vertex in lane order; a lane with an end outside the graph is not loaded. */
  function Targets(lanes: seq<Lane>, u: int, n: nat): (ts: seq<int>)
    ensures forall v :: v in ts <==> (u, v) in lanes && 0 <= v < n
  {
    if lanes == [] then []
    else
      (if lanes[0].0 == u && 0 <= lanes[0].1 < n then [lanes[0].1] else []) + Targets(lanes[1..], u, n)
  }

  ghost predicate Norm(hypot: (real, real) -> real) {
    (forall a, b :: hypot(a, b) >= 0.0) && hypot(0.0, 0.0) == 0.0
  }

  /** What the fleet node loads from the saved file. */
  function GraphOf(vertices: seq<Vertex>, lanes: seq<Lane>, hypot: (real, real) -> real): (g: Graph)
    ensures Norm(hypot) ==> g.Valid()
    ensures g.vertices == vertices && g.hypot == hypot && |g.adj| == |vertices|
    ensures forall u, v :: g.Lane(u, v) <==> (u, v) in lanes && 0 <= u < |vertices| && 0 <= v < |vertices|
  {
    var g := Graph(vertices, seq(|vertices|, u => Targets(lanes, u, |vertices|)), hypot);
    assert forall u, k | 0 <= u < |g.adj| && 0 <= k < |g.adj[u]| :: g.adj[u][k] in Targets(lanes, u, |vertices|);
    g
  }

  predicate Symmetric(lanes: seq<Lane>) {
    forall l | l in lanes :: (l.1, l.0) in lanes
  }

  // ---------------------------------------------------------------- lane edits

  function Ends(l: Lane): set<int> { {l.0, l.1} }

  function Without(lanes: seq<Lane>, ends: set<int>): (r: seq<Lane>)
    ensures forall l :: l in r <==> l in lanes && Ends(l) != ends
  {
    if lanes == [] then []
    else (if Ends(lanes[0]) != ends then [lanes[0]] else []) + Without(lanes[1..], ends)
  }

  /** Renumbering after vertex `i` is gone, and back. */
  function Down(i: int, v: int): int { if v > i then v - 1 else v }

  function Up(i: int, v: int): int { if v >= i then v + 1 else v }

  function Relabelled(i: int, l: Lane): seq<Lane> {
    if l.0 == i || l.1 == i then [] else [(Down(i, l.0), Down(i, l.1))]
  }

  function Renumbered(lanes: seq<Lane>, i: int): seq<Lane> {
    if lanes == [] then [] else Relabelled(i, lanes[0]) + Renumbered(lanes[1..], i)
  }

  /** One pass of the renumbering loop. */
  lemma RenumberedStep(lanes: seq<Lane>, i: int, k: nat, done: seq<Lane>)
    requires k < |lanes| && Renumbered(lanes, i) == done + Renumbered(lanes[k..], i)
    ensures Renumbered(lanes, i) == done + Relabelled(i, lanes[k]) + Renumbered(lanes[k + 1..], i)
    ensures lanes[k].0 == i || lanes[k].1 == i ==> Renumbered(lanes, i) == done + Renumbered(lanes[k + 1..], i)
  {
    var here, rest := Relabelled(i, lanes[k]), Renumbered(lanes[k + 1..], i);
    assert Renumbered(lanes[k..], i) == here + rest by {
      assert lanes[k..][1..] == lanes[k + 1..];
    }
    hide Renumbered;
    assert done + (here + rest) == done + here + rest;
    if lanes[k].0 == i || lanes[k].1 == i {
      assert here == [] && done + here == done;
    }
  }

  lemma RenumberedAll(lanes: seq<Lane>, i: int, done: seq<Lane>)
    requires Renumbered(lanes, i) == done + Renumbered(lanes[|lanes|..], i)
    ensures Renumbered(lanes, i) == done
  {}

  /** The new lanes are exactly the old ones that do not touch the deleted vertex. */
  lemma {:induction false} RenumberedLanes(lanes: seq<Lane>, i: int, l: Lane)
    ensures l in Renumbered(lanes, i) <==> (Up(i, l.0), Up(i, l.1)) in lanes
  {
    if lanes != [] {
      RenumberedLanes(lanes[1..], i, l);
      assert l in Relabelled(i, lanes[0]) <==> (Up(i, l.0), Up(i, l.1)) == lanes[0];
    }
  }

  lemma RenumberedSymmetric(lanes: seq<Lane>, i: int)
    requires Symmetric(lanes)
    ensures Symmetric(Renumbered(lanes, i))
  {
    forall l | l in Renumbered(lanes, i) ensures (l.1, l.0) in Renumbered(lanes, i) {
      RenumberedLanes(lanes, i, l);
      RenumberedLanes(lanes, i, (l.1, l.0));
      var up: Lane := (Up(i, l.0), Up(i, l.1));
      assert (up.1, up.0) in lanes;
    }
  }

  class Bridge {
    var vertices: seq<Vertex>
    var lanes: seq<Lane>

    constructor (vs: seq<Vertex>, ls: seq<Lane>)
      ensures vertices == vs && lanes == ls
    {
      vertices, lanes := vs, ls;
    }

    /** Adds both directions, each unless present; a lane from a vertex to itself is refused. */
    method AddLane(a: int, b: int) returns (ok: bool)
      modifies this
      ensures ok <==> a != b
      ensures vertices == old(vertices)
      ensures forall l: Lane :: l in lanes <==> l in old(lanes) || (ok && Ends(l) == {a, b})
      ensures old(Symmetric(lanes)) ==> Symmetric(lanes)
    {
      if a == b {
        return false;
      }
      for k := 0 to 2
        invariant vertices == old(vertices)
        invariant forall l :: l in lanes <==> l in old(lanes) || (k > 0 && l == (a, b)) || (k > 1 && l == (b, a))
      {
        var l := if k == 0 then (a, b) else (b, a);
        if l !in lanes {
          lanes := lanes + [l];
        }
      }
      assert forall l: Lane :: Ends(l) == {a, b} ==> l.0 in Ends(l) && l.1 in Ends(l) && a in Ends(l) && b in Ends(l);
      return true;
    }

    /** Removes every lane between two vertices, in either direction. */
    method DelLane(a: int, b: int) returns (ok: bool)
      modifies this
      ensures ok && vertices == old(vertices)
      ensures forall l: Lane :: l in lanes <==> l in old(lanes) && Ends(l) != {a, b}
      ensures old(Symmetric(lanes)) ==> Symmetric(lanes)
    {
      lanes := Without(lanes, {a, b});
      assert forall l: Lane :: Ends((l.1, l.0)) == Ends(l);
      return true;
    }

    /** Removes a vertex with all its lanes and closes the gap in the numbering. */
    method DelVertex(i: int) returns (ok: bool)
      modifies this
      ensures ok <==> 0 <= i < |old(vertices)|
      ensures !ok ==> vertices == old(vertices) && lanes == old(lanes)
      ensures ok ==> vertices == old(vertices)[..i] + old(vertices)[i + 1..]
      ensures ok ==> lanes == Renumbered(old(lanes), i)
      ensures old(Symmetric(lanes)) ==> Symmetric(lanes)
    {
      if !(0 <= i < |vertices|) {
        return false;
      }
      hide Renumbered, Symmetric;
      vertices := vertices[..i] + vertices[i + 1..];
      var relanes: seq<Lane> := [];
      assert lanes[0..] == lanes;
      for k := 0 to |lanes|
        invariant vertices == old(vertices)[..i] + old(vertices)[i + 1..] && lanes == old(lanes)
        invariant Renumbered(lanes, i) == relanes + Renumbered(lanes[k..], i)
      {
        RenumberedStep(lanes, i, k, relanes);
        var (a, b) := lanes[k];
        if a == i || b == i {
          continue;
        }
        relanes := relanes + [(Down(i, a), Down(i, b))];
      }
      RenumberedAll(lanes, i, relanes);
      lanes := relanes;
      if old(Symmetric(lanes)) {
        RenumberedSymmetric(old(lanes), i);
      }
      return true;
    }
  }

  // ---------------------------------------------------------------- deleting is avoiding

  function Edited(g: Graph, lanes: seq<Lane>, i: int): (e: Graph)
    requires g.Has(i)
    ensures Norm(g.hypot) ==> e.Valid()
  {
    GraphOf(g.vertices[..i] + g.vertices[i + 1..], Renumbered(lanes, i), g.hypot)
  }

  function UpPath(i: int, p: seq<int>): (q: seq<int>)
    ensures |q| == |p| && forall k | 0 <= k < |p| :: q[k] == Up(i, p[k])
  {
    seq(|p|, k requires 0 <= k < |p| => Up(i, p[k]))
  }

  function DownPath(i: int, p: seq<int>): (q: seq<int>)
    ensures |q| == |p| && forall k | 0 <= k < |p| :: q[k] == Down(i, p[k])
  {
    seq(|p|, k requires 0 <= k < |p| => Down(i, p[k]))
  }

  lemma LaneKept(vertices: seq<Vertex>, lanes: seq<Lane>, hypot: (real, real) -> real, i: int, u: int, v: int)
    requires Norm(hypot) && 0 <= i < |vertices|
    ensures var g := GraphOf(vertices, lanes, hypot); var e := Edited(g, lanes, i);
            (e.Lane(u, v) <==> g.Lane(Up(i, u), Up(i, v))) && (e.Has(u) <==> g.Has(Up(i, u)))
  {
    var g := GraphOf(vertices, lanes, hypot);
    var e := Edited(g, lanes, i);
    RenumberedLanes(lanes, i, (u, v));
    if e.Has(u) {
      assert e.adj[u] == Targets(Renumbered(lanes, i), u, |e.vertices|);
      assert g.adj[Up(i, u)] == Targets(lanes, Up(i, u), |vertices|);
    }
  }

  lemma LengthKept(g: Graph, lanes: seq<Lane>, i: int, u: int, v: int)
    requires g.Has(i) && Edited(g, lanes, i).Has(u) && Edited(g, lanes, i).Has(v)
    ensures Edited(g, lanes, i).Length(u, v) == g.Length(Up(i, u), Up(i, v))
  {}

  lemma {:induction false} CostKept(g: Graph, lanes: seq<Lane>, i: int, p: seq<int>)
    requires g.Has(i) && Edited(g, lanes, i).InRange(p)
    ensures g.InRange(UpPath(i, p)) && Edited(g, lanes, i).Cost(p) == g.Cost(UpPath(i, p))
    decreases |p|
  {
    if |p| >= 2 {
      var n := |p| - 1;
      CostKept(g, lanes, i, p[..n]);
      assert UpPath(i, p)[..n] == UpPath(i, p[..n]);
      LengthKept(g, lanes, i, p[n - 1], p[n]);
    }
  }

  /** The walks of the edited graph are, renumbered, exactly the routes that keep clear of the deleted vertex. */
  lemma RoutesKept(vertices: seq<Vertex>, lanes: seq<Lane>, hypot: (real, real) -> real, i: int, j: int, k: int,
                   p: seq<int>)
    requires Norm(hypot) && 0 <= i < |vertices|
    ensures Edited(GraphOf(vertices, lanes, hypot), lanes, i).Route(j, k, -1, p) <==>
            GraphOf(vertices, lanes, hypot).Route(Up(i, j), Up(i, k), i, UpPath(i, p))
  {
    var g := GraphOf(vertices, lanes, hypot);
    var e, q := Edited(g, lanes, i), UpPath(i, p);
    forall n | 0 <= n < |p| ensures e.Has(p[n]) <==> g.Has(q[n]) {
      LaneKept(vertices, lanes, hypot, i, p[n], p[n]);
    }
    forall n | 0 < n < |p| ensures e.Lane(p[n - 1], p[n]) <==> g.Lane(q[n - 1], q[n]) {
      LaneKept(vertices, lanes, hypot, i, p[n - 1], p[n]);
    }
  }

  lemma UpDown(i: int, p: seq<int>)
    requires i !in p
    ensures UpPath(i, DownPath(i, p)) == p
  {}

  /**
   Deleting a vertex does to planning what avoiding it does: between any two remaining vertices the
   planner finds a route in the edited graph exactly when it finds one in the old graph that avoids
   the deleted vertex, and the two cost the same.
   */
  lemma DeletionIsAvoidance(vertices: seq<Vertex>, lanes: seq<Lane>, hypot: (real, real) -> real, i: int,
                            j: int, k: int, edited: seq<int>, avoiding: seq<int>)
    requires Norm(hypot) && 0 <= i < |vertices| && j != i && k != i
    requires Edited(GraphOf(vertices, lanes, hypot), lanes, i).Shortest(Down(i, j), Down(i, k), -1, edited)
    requires GraphOf(vertices, lanes, hypot).Shortest(j, k, i, avoiding)
    ensures edited == [] <==> avoiding == []
    ensures edited != [] ==>
              var g := GraphOf(vertices, lanes, hypot);
              Edited(g, lanes, i).Cost(edited) == g.Cost(avoiding)
  {
    var g := GraphOf(vertices, lanes, hypot);
    var e := Edited(g, lanes, i);
    LaneKept(vertices, lanes, hypot, i, Down(i, j), Down(i, k));
    LaneKept(vertices, lanes, hypot, i, Down(i, k), Down(i, j));
    if edited != [] {
      RoutesKept(vertices, lanes, hypot, i, Down(i, j), Down(i, k), edited);
      CostKept(g, lanes, i, edited);
      assert g.Route(j, k, i, UpPath(i, edited));
    }
    if avoiding != [] {
      var p := DownPath(i, avoiding);
      UpDown(i, avoiding);
      RoutesKept(vertices, lanes, hypot, i, Down(i, j), Down(i, k), p);
      assert e.Route(Down(i, j), Down(i, k), -1, p);
      CostKept(g, lanes, i, p);
    }
  }

  // ---------------------------------------------------------------- the bid calculator

  /** The console's own shortest-path search: the lanes of one settled vertex. */
  method Scan(g: Graph, from: int, u: int, d: real, dist0: seq<Dist>, pq0: multiset<(real, int)>, ghost s0: Search)
    returns (dist: seq<Dist>, pq: multiset<(real, int)>, ghost s: Search)
    requires g.Valid() && Explored(g, from, -1, s0, u, 0)
    requires s0.dist == dist0 && s0.pq == pq0 && u in s0.settled && s0.dist[u] == Finite(d) && s0.level == d
    ensures s.dist == dist && s.pq == pq && s.settled == s0.settled && Explored(g, from, -1, s, -1, 0)
  {
    hide Explored, Queued;
    Extent(g, from, -1, s0, u, 0);
    dist, pq, s := dist0, pq0, s0;
    for k := 0 to |g.adj[u]|
      invariant |dist| == g.Size() && 0 <= u < g.Size()
      invariant s.dist == dist && s.pq == pq && s.settled == s0.settled
      invariant Explored(g, from, -1, s, u, k)
      invariant s.dist[u] == Finite(d) && s.level == d
    {
      Extent(g, from, -1, s, u, k);
      var w := g.adj[u][k];
      var nd := d + g.Length(u, w);
      if Improves(nd, dist[w]) {
        Relax(g, from, -1, s, u, k);
        s := Shortened(g, s, u, k);
        dist := dist[w := Finite(nd)];
        pq := pq + multiset{(nd, w)};
      } else {
        Skip(g, from, -1, s, u, k);
      }
    }
    Expanded(g, from, -1, s, u);
  }

  /** The length of a shortest route as a distance label. */
  ghost function FareLabel(g: Graph, src: int, goal: int): Dist
    requires g.Valid()
  {
    match Fare(g, src, goal) case Some(d) => Finite(d) case None => Infinite
  }

  /** The list element that the index denotes: a negative index counts from the end, others may be out of range. */
  function Indexed(goal: int, n: nat): Option<int> {
    if 0 <= goal < n then Some(goal) else if -(n as int) <= goal < 0 then Some(goal + n) else None
  }

  /**
   The cost from `src` to `goal`, Infinite when there is no way. A negative goal is looked up from the end of
   the distance list, as list indices are; None is the index error of a goal that is no index at all.
   */
  method BidCost(g: Graph, src: int, goal: int) returns (c: Option<Dist>)
    requires g.Valid() && g.Has(src)
    ensures c == match Indexed(goal, g.Size()) case None => None case Some(v) => Some(FareLabel(g, src, v))
  {
    hide Explored, Queued, Final, Fare, FareLabel;
    var dist := seq(g.Size(), _ => Infinite)[src := Finite(0.0)];
    var pq := multiset{(0.0, src)};
    ghost var s := Start(g.Size(), src);
    Started(g, src, -1);
    while |pq| > 0
      invariant s.dist == dist && s.pq == pq && Explored(g, src, -1, s, -1, 0) && goal !in s.settled
      decreases Below(g.Size()) - s.settled, |pq|
    {
      Extent(g, src, -1, s, -1, 0);
      var top, rest := PopTop(pq);
      var (d, u) := top;
      pq := rest;
      if d > dist[u].d {
        DropOutdated(g, src, -1, s, top);
        s := s.(pq := pq);
        continue;
      }
      if u == goal {
        ExitEarly(g, src, -1, s, top);
        FareFound(g, src, goal, s);
        return Some(Finite(d));
      }
      Settle(g, src, -1, s, top);
      s := Settled(s, top);
      dist, pq, s := Scan(g, src, u, d, dist, pq, s);
    }
    Extent(g, src, -1, s, -1, 0);
    match Indexed(goal, g.Size())
    case None => return None;
    case Some(v) =>
      ExitDrained(g, src, v, s);
      return Some(dist[v]);
  }

  /** With the queue empty every label is final. */
  lemma ExitDrained(g: Graph, src: int, v: int, s: Search)
    requires g.Valid() && g.Has(v) && Explored(g, src, -1, s, -1, 0) && |s.pq| == 0
    ensures |s.dist| == g.Size() && s.dist[v] == FareLabel(g, src, v)
  {
    Extent(g, src, -1, s, -1, 0);
    hide FareLabel;
    if v in s.settled {
      forall p | g.Route(src, v, -1, p) ensures s.dist[v].d <= g.Cost(p) {
        SettledBounds(g, src, -1, s, v, p);
      }
    } else {
      ExitEmpty(g, src, v, -1, s);
    }
    FareFound(g, src, v, s);
  }

  lemma FareFound(g: Graph, src: int, goal: int, s: Search)
    requires g.Valid() && g.Has(goal) && Explored(g, src, -1, s, -1, 0) && Final(g, src, goal, -1, s.dist)
    ensures s.dist[goal] == FareLabel(g, src, goal)
  {
    var path := if s.dist[goal].Finite? then s.routes[goal] else [];
    Answer(g, src, goal, -1, s);
    FareIs(g, src, goal, path);
    assert Witnessed(g, src, goal, -1, s.settled, s.dist[goal], s.routes[goal]);
    hide Explored, Final, Fare, Graph.Shortest;
    if src == goal {
      SelfFare(g, goal);
    }
  }

  lemma SelfFare(g: Graph, v: int)
    requires g.Valid() && g.Has(v)
    ensures Fare(g, v, v) == Some(0.0)
  {}

  /** The console looks for the nearest vertex by squared distances, and finds the fleet node's. */
  method NearestVertexOf(g: Graph, x: real, y: real) returns (best: int)
    requires Euclidean(g) && g.Size() > 0
    ensures best == g.NearestVertex(x, y)
  {
    best := 0;
    for i := 1 to g.Size()
      invariant 0 <= best < i
      invariant forall j | 0 <= j < i :: g.Distance(best, x, y) <= g.Distance(j, x, y)
      invariant forall j | 0 <= j < best :: g.Distance(best, x, y) < g.Distance(j, x, y)
    {
      SquaresCompare(g, best, i, x, y);
      if SquaredDistance(g, i, x, y) < SquaredDistance(g, best, x, y) {
        best := i;
      }
    }
  }

  /**
   One robot's line of the bid table, before rounding: the dispatcher's own bid, if the goal can be reached;
   None where the program stops with an index error.
   */
  method BidOf(g: Graph, r: RobotInfo, goal: int) returns (nearest: int, bid: Option<Dist>)
    requires g.Valid() && Euclidean(g) && g.Size() > 0
    ensures nearest == g.NearestVertex(r.x, r.y)
    ensures bid.None? <==> goal < -(g.Size() as int) || goal >= g.Size()
    ensures g.Has(goal) ==> bid.value == FareLabel(g, nearest, goal)
    ensures -(g.Size() as int) <= goal < 0 ==> bid.value == FareLabel(g, nearest, g.Size() + goal)
    ensures g.Has(goal) && bid.value.Finite? ==> bid.value.d == Bid(g, goal, r)
  {
    nearest := NearestVertexOf(g, r.x, r.y);
    bid := BidCost(g, nearest, goal);
  }
}
