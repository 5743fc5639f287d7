/** Riding the patrol route: entering it at the closest vertex and following it in its own direction. */
module Patrol {
  import opened Navgraph

  /** `j % n` for a position at most one lap ahead. */
  function Wrap(j: nat, n: nat): (i: nat)
    requires j < 2 * n
    ensures i < n
  {
    if j < n then j else j - n
  }

  lemma WrapIsModulo(j: nat, n: nat)
    requires j < 2 * n
    ensures j % n == Wrap(j, n)
  {
    if j >= n {
      assert j / n == 1;
    }
  }

  function Next(route: seq<int>, i: nat): int
    requires i < |route|
  {
    route[Wrap(i + 1, |route|)]
  }

  /** A vertex cycle that follows lanes, including the one that closes it. */
  predicate ClosedWalk(g: Graph, route: seq<int>)
    requires |g.adj| == |g.vertices|
  {
    && g.InRange(route)
    && forall i {:trigger Next(route, i)} | 0 <= i < |route| :: g.Lane(route[i], Next(route, i))
  }

  /** How far a robot is from a vertex, as the fleet node computes it. */
  function Away(g: Graph, v: int, x: real, y: real): real
    requires g.Has(v)
  {
    g.hypot(x - g.vertices[v].x, y - g.vertices[v].y)
  }

  lemma AwayIs(g: Graph, v: int, x: real, y: real)
    requires g.Has(v) && Euclidean(g)
    ensures var p := g.vertices[v];
            Away(g, v, x, y) >= 0.0
            && Away(g, v, x, y) * Away(g, v, x, y) == (x - p.x) * (x - p.x) + (y - p.y) * (y - p.y)
  {}

  /** The first of the `n` first route positions that is closest to a point. */
  function EntryBelow(g: Graph, route: seq<int>, n: nat, x: real, y: real): (k: nat)
    requires 0 < n <= |route| && g.InRange(route)
    ensures k < n
  {
    if n == 1 then 0
    else
      var k := EntryBelow(g, route, n - 1, x, y);
      if Away(g, route[n - 1], x, y) < Away(g, route[k], x, y) then n - 1 else k
  }

  lemma {:induction false} EntryIsNearest(g: Graph, route: seq<int>, n: nat, x: real, y: real)
    requires 0 < n <= |route| && g.InRange(route)
    ensures var k := EntryBelow(g, route, n, x, y);
            forall i | 0 <= i < n ::
              Away(g, route[k], x, y) <= Away(g, route[i], x, y)
              && (i < k ==> Away(g, route[k], x, y) < Away(g, route[i], x, y))
  {
    if n > 1 {
      EntryIsNearest(g, route, n - 1, x, y);
    }
  }

  /** Where a lap begins; a first hop into `avoidFirst` moves the entry one position ahead. */
  function Entry(g: Graph, route: seq<int>, x: real, y: real, avoidFirst: int): (k: nat)
    requires 0 < |route| && g.InRange(route)
    ensures k < |route|
  {
    var k := EntryBelow(g, route, |route|, x, y);
    if avoidFirst >= 0 && Next(route, k) == avoidFirst then Wrap(k + 1, |route|) else k
  }

  function Turned(route: seq<int>, k: nat): seq<int>
    requires k < |route|
  {
    seq(|route| + 1, i requires 0 <= i <= |route| => route[Wrap(k + i, |route|)])
  }

  /** One lap: the route rotated to its entry and closed by repeating the first vertex. */
  function Lap(g: Graph, route: seq<int>, x: real, y: real, avoidFirst: int): seq<int>
    requires 0 < |route| && g.InRange(route)
  {
    Turned(route, Entry(g, route, x, y, avoidFirst))
  }

  /** A lap is a closed lane walk through the whole route, in the route's own direction. */
  lemma {:induction false} LapIsClosed(g: Graph, route: seq<int>, x: real, y: real, avoidFirst: int)
    requires g.Valid() && 0 < |route| && ClosedWalk(g, route)
    ensures var lap, k := Lap(g, route, x, y, avoidFirst), Entry(g, route, x, y, avoidFirst);
            && lap == route[k..] + route[..k] + [route[k]]
            && lap[0] == lap[|route|] == route[k]
            && g.Walk(lap)
  {
    var lap, k := Lap(g, route, x, y, avoidFirst), Entry(g, route, x, y, avoidFirst);
    assert lap == Turned(route, k);
    hide Entry;
    assert forall i | 0 <= i < |lap| :: lap[i] == route[Wrap(k + i, |route|)];
    forall i | 0 < i < |lap| ensures g.Lane(lap[i - 1], lap[i]) {
      var j := Wrap(k + i - 1, |route|);
      assert lap[i - 1] == route[j];
      assert lap[i] == Next(route, j);
    }
  }

  /** The lap starts at the closest route position, except that its first hop avoids a vertex when told to. */
  lemma LapEntry(g: Graph, route: seq<int>, x: real, y: real, avoidFirst: int)
    requires |route| >= 2 && g.InRange(route) && forall i, j | 0 <= i < j < |route| :: route[i] != route[j]
    ensures var k, lap := EntryBelow(g, route, |route|, x, y), Lap(g, route, x, y, avoidFirst);
            && (avoidFirst >= 0 ==> lap[1] != avoidFirst)
            && (avoidFirst < 0 || route[(k + 1) % |route|] != avoidFirst ==> lap[0] == route[k])
            && (lap[0] == route[k] || lap[0] == route[(k + 1) % |route|])
  {
    var k, j := EntryBelow(g, route, |route|, x, y), Entry(g, route, x, y, avoidFirst);
    WrapIsModulo(k + 1, |route|);
    assert Turned(route, j)[0] == route[Wrap(j + 0, |route|)] && Turned(route, j)[1] == route[Wrap(j + 1, |route|)];
  }

  method MakePatrolPath(g: Graph, route: seq<int>, x: real, y: real, avoidFirst: int) returns (path: seq<int>)
    requires 0 < |route| && g.InRange(route)
    ensures path == Lap(g, route, x, y, avoidFirst)
  {
    var n := |route|;
    var k, best := 0, Away(g, route[0], x, y);
    for i := 0 to n
      invariant k < n && best == Away(g, route[k], x, y)
      invariant if i == 0 then k == 0 else k == EntryBelow(g, route, i, x, y)
    {
      var d := Away(g, route[i], x, y);
      if d < best {
        best, k := d, i;
      }
    }
    WrapIsModulo(k + 1, n);
    if avoidFirst >= 0 && route[(k + 1) % n] == avoidFirst {
      k := (k + 1) % n;
    }
    path := Unroll(route, k);
  }

  method Unroll(route: seq<int>, k: nat) returns (path: seq<int>)
    requires k < |route|
    ensures path == Turned(route, k)
  {
    var n := |route|;
    path := [];
    for i := 0 to n
      invariant path == Turned(route, k)[..i]
    {
      WrapIsModulo(k + i, n);
      path := path + [route[(k + i) % n]];
    }
    assert Turned(route, k)[n] == route[Wrap(k + n, n)] == route[k];
    path := path + [route[k]];
  }

  /** The route vertex after `node`'s first occurrence, or -1 when it is not on the route. */
  function Succ(route: seq<int>, node: int): int {
    SuccFrom(route, node, 0)
  }

  predicate FirstAt(route: seq<int>, node: int, i: nat, j: int)
    requires i <= j < |route|
  {
    route[j] == node && forall h | i <= h < j :: route[h] != node
  }

  function SuccFrom(route: seq<int>, node: int, i: nat): (s: int)
    requires i <= |route|
    ensures node !in route[i..] ==> s == -1
    ensures node in route[i..] ==> exists j :: i <= j < |route| && FirstAt(route, node, i, j) && s == Next(route, j)
    decreases |route| - i
  {
    if i == |route| then -1
    else if route[i] == node then Next(route, i)
    else SuccFrom(route, node, i + 1)
  }

  lemma SuccFollowsLane(g: Graph, route: seq<int>, node: int)
    requires g.Valid() && ClosedWalk(g, route)
    ensures Succ(route, node) == -1 <==> node !in route
    ensures node in route ==> g.Lane(node, Succ(route, node))
  {
    assert route[0..] == route;
  }

  method PatrolSucc(route: seq<int>, node: int) returns (s: int)
    ensures s == Succ(route, node)
  {
    for i := 0 to |route|
      invariant SuccFrom(route, node, 0) == SuccFrom(route, node, i)
    {
      if route[i] == node {
        WrapIsModulo(i + 1, |route|);
        return route[(i + 1) % |route|];
      }
    }
    return -1;
  }
}
