/** The navigation graph: nearest vertex, path cost and shortest paths that avoid one vertex. */
module Navgraph {

  datatype Vertex = Vertex(x: real, y: real)

  /** Vertices, adjacency lists and the Euclidean norm over exact reals. */
  datatype Graph = Graph(vertices: seq<Vertex>, adj: seq<seq<int>>, hypot: (real, real) -> real) {

    function Size(): nat { |vertices| }

    predicate Has(v: int) { 0 <= v < |vertices| }

    ghost predicate Valid() {
      && |adj| == |vertices|
      && (forall u, k | 0 <= u < |adj| && 0 <= k < |adj[u]| :: Has(adj[u][k]))
      && (forall a, b :: hypot(a, b) >= 0.0)
      && hypot(0.0, 0.0) == 0.0
    }

    predicate Lane(u: int, v: int)
      requires |adj| == |vertices|
    {
      Has(u) && v in adj[u]
    }

    function Length(u: int, v: int): real
      requires Has(u) && Has(v)
    {
      hypot(vertices[u].x - vertices[v].x, vertices[u].y - vertices[v].y)
    }

    predicate InRange(path: seq<int>) {
      forall i | 0 <= i < |path| :: Has(path[i])
    }

    /** Driving distance along a vertex sequence. */
    function Cost(path: seq<int>): real
      requires InRange(path)
    {
      if |path| < 2 then 0.0 else Cost(path[..|path| - 1]) + Length(path[|path| - 2], path[|path| - 1])
    }

    /** A non-empty vertex sequence that follows lanes. */
    predicate Walk(path: seq<int>)
      requires Valid()
    {
      && |path| > 0 && InRange(path)
      && (forall i | 0 < i < |path| :: Lane(path[i - 1], path[i]))
    }

    /** A walk that does not enter `avoid`; its first vertex is not entered. */
    predicate Route(from: int, to: int, avoid: int, path: seq<int>)
      requires Valid()
    {
      && Walk(path) && path[0] == from && path[|path| - 1] == to
      && (forall i | 0 < i < |path| :: path[i] != avoid)
    }

    predicate Simple(path: seq<int>) {
      forall i, j | 0 <= i < j < |path| :: path[i] != path[j]
    }

    /** What the planner promises: a cheapest route that repeats no vertex, or empty when there is no route. */
    ghost predicate Shortest(from: int, to: int, avoid: int, path: seq<int>)
      requires Valid()
    {
      if path == [] then !Has(from) || !Has(to) || forall p :: !Route(from, to, avoid, p)
      else
        && Route(from, to, avoid, path) && Simple(path)
        && (forall p :: Route(from, to, avoid, p) ==> Cost(path) <= Cost(p))
    }

    function Distance(v: int, x: real, y: real): real
      requires Has(v)
    {
      hypot(vertices[v].x - x, vertices[v].y - y)
    }

    /** The first of the vertices below `n` that is closest to a point, or -1 without vertices. */
    function NearestBelow(n: nat, x: real, y: real): (best: int)
      requires n <= Size()
      ensures n == 0 ==> best == -1
      ensures n > 0 ==> 0 <= best < n
      ensures forall i | 0 <= i < n :: Distance(best, x, y) <= Distance(i, x, y)
      ensures forall i | 0 <= i < best :: Distance(best, x, y) < Distance(i, x, y)
    {
      if n == 0 then -1
      else
        var b := NearestBelow(n - 1, x, y);
        if b < 0 || Distance(n - 1, x, y) < Distance(b, x, y) then n - 1 else b
    }

    function NearestVertex(x: real, y: real): int { NearestBelow(Size(), x, y) }

    method Nearest(x: real, y: real) returns (best: int)
      ensures best == NearestVertex(x, y)
    {
      best := -1;
      var bestDistance := 0.0;
      for i := 0 to Size()
        invariant best == NearestBelow(i, x, y)
        invariant best >= 0 ==> bestDistance == Distance(best, x, y)
      {
        var d := Distance(i, x, y);
        if best < 0 || d < bestDistance {
          bestDistance := d;
          best := i;
        }
      }
    }

    method PathCost(path: seq<int>) returns (c: real)
      requires InRange(path)
      ensures c == Cost(path)
    {
      c := 0.0;
      if |path| == 0 { return; }
      for i := 1 to |path|
        invariant c == Cost(path[..i])
      {
        assert path[..i + 1][..i] == path[..i];
        c := c + Length(path[i - 1], path[i]);
      }
      assert path[..|path|] == path;
    }
  }

  // ---------------------------------------------------------------- Dijkstra with lazy deletion

  /** A tentative distance; Infinite stands for the largest double. */
  datatype Dist = Infinite | Finite(d: real)

  predicate Improves(d: real, than: Dist) {
    than.Infinite? || d < than.d
  }

  /** Queue entries compare as std::pair does: distance first, then vertex. */
  predicate Sooner(a: (real, int), b: (real, int)) {
    a.0 < b.0 || (a.0 == b.0 && a.1 < b.1)
  }

  method PopTop(pq: multiset<(real, int)>) returns (top: (real, int), rest: multiset<(real, int)>)
    requires |pq| > 0
    ensures top in pq && rest == pq - multiset{top}
    ensures forall e | e in pq :: !Sooner(e, top)
  {
    top :| top in pq;
    var left := pq;
    while |left| > 0
      invariant left <= pq && top in pq
      invariant forall e | e in pq && e !in left :: !Sooner(e, top)
      decreases |left|
    {
      var e :| e in left;
      if Sooner(e, top) {
        top := e;
      }
      left := left[e := 0];
    }
    rest := pq - multiset{top};
  }

  /** The search as seen between two lane relaxations; routes, settled and level are proof history. */
  datatype Search = Search(dist: seq<Dist>, pq: multiset<(real, int)>,
                           settled: set<int>, routes: seq<seq<int>>, level: real)

  /** A finite label is the cost of a recorded simple route whose inner vertices are settled. */
  ghost predicate Witnessed(g: Graph, from: int, v: int, avoid: int, settled: set<int>, d: Dist, route: seq<int>)
    requires g.Valid()
  {
    d.Finite? ==>
      && g.Route(from, v, avoid, route) && g.Simple(route)
      && 0.0 <= g.Cost(route) == d.d
      && (forall i | 0 <= i < |route| - 1 :: route[i] in settled)
  }

  ghost predicate Labelled(g: Graph, from: int, avoid: int, s: Search)
    requires g.Valid()
  {
    && |s.dist| == |s.routes| == g.Size() && g.Has(from)
    && s.dist[from] == Finite(0.0)
    && (forall v {:trigger Witnessed(g, from, v, avoid, s.settled, s.dist[v], s.routes[v])} | g.Has(v) ::
          Witnessed(g, from, v, avoid, s.settled, s.dist[v], s.routes[v]))
  }

  /** The queue holds each unsettled label once, and otherwise only outdated entries. */
  ghost predicate Queued(s: Search) {
    && (forall v | v in s.settled :: 0 <= v < |s.dist| && s.dist[v].Finite? && s.dist[v].d <= s.level)
    && (forall e | e in s.pq ::
          && s.pq[e] == 1 && s.level <= e.0
          && 0 <= e.1 < |s.dist| && s.dist[e.1].Finite? && s.dist[e.1].d <= e.0
          && (e.1 in s.settled ==> s.dist[e.1].d < e.0))
    && (forall v | 0 <= v < |s.dist| && v !in s.settled && s.dist[v].Finite? :: (s.dist[v].d, v) in s.pq)
  }

  /** The lanes of settled vertices are relaxed; of `u` only the first `k`. */
  ghost predicate Relaxed(g: Graph, avoid: int, s: Search, u: int, k: int)
    requires g.Valid() && Queued(s) && |s.dist| == g.Size()
  {
    forall x, j | x in s.settled && 0 <= j < |g.adj[x]| && (x == u ==> j < k) && g.adj[x][j] != avoid ::
      s.dist[g.adj[x][j]].Finite? && s.dist[g.adj[x][j]].d <= s.dist[x].d + g.Length(x, g.adj[x][j])
  }

  ghost predicate Explored(g: Graph, from: int, avoid: int, s: Search, u: int, k: int)
    requires g.Valid()
  {
    Labelled(g, from, avoid, s) && Queued(s) && Relaxed(g, avoid, s, u, k)
  }

  ghost predicate Top(e: (real, int), pq: multiset<(real, int)>) {
    e in pq && forall f | f in pq :: !Sooner(f, e)
  }

  lemma DropOutdated(g: Graph, from: int, avoid: int, s: Search, e: (real, int))
    requires g.Valid() && Explored(g, from, avoid, s, -1, 0) && Top(e, s.pq)
    requires s.dist[e.1].d < e.0
    ensures Explored(g, from, avoid, s.(pq := s.pq - multiset{e}), -1, 0)
  {}

  ghost function Settled(s: Search, e: (real, int)): Search {
    s.(pq := s.pq - multiset{e}, settled := s.settled + {e.1}, level := e.0)
  }

  lemma SettleQueue(s: Search, e: (real, int))
    requires Queued(s) && Top(e, s.pq) && s.dist[e.1].d == e.0
    ensures e.1 !in s.settled && Queued(Settled(s, e))
  {}

  /** The top entry that is still current is final: its vertex is settled for the first time. */
  lemma Settle(g: Graph, from: int, avoid: int, s: Search, e: (real, int))
    requires g.Valid() && Explored(g, from, avoid, s, -1, 0) && Top(e, s.pq)
    requires s.dist[e.1].d == e.0
    ensures e.1 !in s.settled
    ensures Explored(g, from, avoid, Settled(s, e), e.1, 0)
  {
    SettleQueue(s, e);
    var t := Settled(s, e);
    forall v | g.Has(v) ensures Witnessed(g, from, v, avoid, t.settled, t.dist[v], t.routes[v]) {
      Inherit(g, from, v, avoid, s.settled, t.settled, s.dist[v], s.routes[v]);
    }
    hide Queued;
  }

  lemma Inherit(g: Graph, from: int, v: int, avoid: int, settled: set<int>, more: set<int>, d: Dist, route: seq<int>)
    requires g.Valid() && Witnessed(g, from, v, avoid, settled, d, route) && settled <= more
    ensures Witnessed(g, from, v, avoid, more, d, route)
  {}

  /** A settled vertex `u` at the current level finds a shorter way to the target of its k-th lane. */
  ghost predicate Shortens(g: Graph, avoid: int, s: Search, u: int, k: nat)
    requires g.Valid() && Queued(s) && |s.dist| == g.Size()
  {
    && u in s.settled && s.dist[u].d == s.level && k < |g.adj[u]| && g.adj[u][k] != avoid
    && Improves(s.dist[u].d + g.Length(u, g.adj[u][k]), s.dist[g.adj[u][k]])
  }

  ghost function Shortened(g: Graph, s: Search, u: int, k: nat): Search
    requires g.Valid() && Queued(s) && |s.dist| == |s.routes| == g.Size() && u in s.settled && k < |g.adj[u]|
  {
    var v, d := g.adj[u][k], s.dist[u].d + g.Length(u, g.adj[u][k]);
    s.(dist := s.dist[v := Finite(d)], routes := s.routes[v := s.routes[u] + [v]], pq := s.pq + multiset{(d, v)})
  }

  lemma RelaxQueue(s: Search, t: Search, v: int, d: real)
    requires Queued(s) && s.level <= d && 0 <= v < |s.dist| && Improves(d, s.dist[v])
    requires t == s.(dist := s.dist[v := Finite(d)], routes := t.routes, pq := s.pq + multiset{(d, v)})
    ensures v !in s.settled
    ensures Queued(t)
  {
    assert (d, v) !in s.pq;
    forall e | e in t.pq ensures t.pq[e] == 1 && s.level <= e.0 && 0 <= e.1 < |s.dist| && t.dist[e.1].Finite?
                                 && t.dist[e.1].d <= e.0 && (e.1 in t.settled ==> t.dist[e.1].d < e.0)
    {
      assert e == (d, v) || e in s.pq;
    }
  }

  lemma ExtendRoute(g: Graph, from: int, u: int, v: int, avoid: int, settled: set<int>, d: real, route: seq<int>)
    requires g.Valid() && Witnessed(g, from, u, avoid, settled, Finite(d), route)
    requires u in settled && v !in settled && g.Lane(u, v) && g.Has(v) && v != avoid
    ensures Witnessed(g, from, v, avoid, settled, Finite(d + g.Length(u, v)), route + [v])
  {
    var p := route + [v];
    assert p[..|p| - 1] == route;
    assert g.Cost(p) == g.Cost(route) + g.Length(u, v);
    assert forall i | 0 <= i < |route| :: p[i] in settled;
  }

  lemma RelaxLabels(g: Graph, from: int, avoid: int, s: Search, u: int, k: nat)
    requires g.Valid() && Labelled(g, from, avoid, s) && Queued(s) && Shortens(g, avoid, s, u, k)
    requires g.adj[u][k] !in s.settled && g.adj[u][k] != from
    ensures Labelled(g, from, avoid, Shortened(g, s, u, k))
  {
    assert Witnessed(g, from, u, avoid, s.settled, s.dist[u], s.routes[u]);
    hide Witnessed;
    ExtendRoute(g, from, u, g.adj[u][k], avoid, s.settled, s.dist[u].d, s.routes[u]);
  }

  lemma RelaxLanes(g: Graph, avoid: int, s: Search, u: int, k: nat)
    requires g.Valid() && Queued(s) && |s.dist| == |s.routes| == g.Size() && Relaxed(g, avoid, s, u, k)
    requires Shortens(g, avoid, s, u, k) && g.adj[u][k] !in s.settled
    requires Queued(Shortened(g, s, u, k))
    ensures Relaxed(g, avoid, Shortened(g, s, u, k), u, k + 1)
  {}

  lemma Relax(g: Graph, from: int, avoid: int, s: Search, u: int, k: nat)
    requires g.Valid() && Explored(g, from, avoid, s, u, k) && Shortens(g, avoid, s, u, k)
    ensures g.adj[u][k] !in s.settled && g.adj[u][k] != from
    ensures Explored(g, from, avoid, Shortened(g, s, u, k), u, k + 1)
  {
    var t := Shortened(g, s, u, k);
    assert Witnessed(g, from, u, avoid, s.settled, s.dist[u], s.routes[u]);
    RelaxQueue(s, t, g.adj[u][k], s.dist[u].d + g.Length(u, g.adj[u][k]));
    hide Witnessed;
    RelaxLabels(g, from, avoid, s, u, k);
    RelaxLanes(g, avoid, s, u, k);
  }

  /** Any route to an unsettled vertex costs at least what some queue entry says. */
  lemma {:induction false} FrontierBounds(g: Graph, from: int, avoid: int, s: Search, to: int, p: seq<int>)
    returns (e: (real, int))
    requires g.Valid() && Explored(g, from, avoid, s, -1, 0)
    requires g.Route(from, to, avoid, p) && to !in s.settled
    ensures e in s.pq && e.0 <= g.Cost(p)
    decreases |p|
  {
    var n := |p| - 1;
    if n == 0 {
      e := (0.0, from);
    } else {
      var q := p[..n];
      assert g.Route(from, p[n - 1], avoid, q);
      if p[n - 1] in s.settled {
        SettledBounds(g, from, avoid, s, p[n - 1], q);
        assert g.Lane(p[n - 1], p[n]);
        var j :| 0 <= j < |g.adj[p[n - 1]]| && g.adj[p[n - 1]][j] == p[n];
        e := (s.dist[to].d, to);
      } else {
        e := FrontierBounds(g, from, avoid, s, p[n - 1], q);
      }
    }
  }

  /** The label of a settled vertex is a lower bound: either via settled vertices, or through the frontier. */
  lemma {:induction false} SettledBounds(g: Graph, from: int, avoid: int, s: Search, v: int, p: seq<int>)
    requires g.Valid() && Explored(g, from, avoid, s, -1, 0)
    requires g.Route(from, v, avoid, p) && v in s.settled
    ensures s.dist[v].d <= g.Cost(p)
    decreases |p|
  {
    var n := |p| - 1;
    if n > 0 {
      var q := p[..n];
      assert g.Route(from, p[n - 1], avoid, q);
      if p[n - 1] in s.settled {
        SettledBounds(g, from, avoid, s, p[n - 1], q);
        assert g.Lane(p[n - 1], p[n]);
        var j :| 0 <= j < |g.adj[p[n - 1]]| && g.adj[p[n - 1]][j] == p[n];
      } else {
        var e := FrontierBounds(g, from, avoid, s, p[n - 1], q);
      }
    }
  }

  ghost function Start(n: nat, from: int): Search
    requires 0 <= from < n
  {
    Search(seq(n, _ => Infinite)[from := Finite(0.0)], multiset{(0.0, from)}, {},
           seq(n, _ => [])[from := [from]], 0.0)
  }

  lemma Started(g: Graph, from: int, avoid: int)
    requires g.Valid() && g.Has(from)
    ensures Explored(g, from, avoid, Start(g.Size(), from), -1, 0)
  {
    assert g.Cost([from]) == 0.0;
  }

  /** Nothing cheaper than the label of `to` exists; in particular no route exists when it is infinite. */
  ghost predicate Final(g: Graph, from: int, to: int, avoid: int, dist: seq<Dist>)
    requires g.Valid() && |dist| == g.Size() && g.Has(to)
  {
    forall p | g.Route(from, to, avoid, p) :: dist[to].Finite? && dist[to].d <= g.Cost(p)
  }

  /** Early exit: a current top entry for an unsettled vertex carries the optimal distance. */
  lemma ExitEarly(g: Graph, from: int, avoid: int, s: Search, e: (real, int))
    requires g.Valid() && Explored(g, from, avoid, s, -1, 0) && Top(e, s.pq)
    requires e.1 !in s.settled && s.dist[e.1].d == e.0
    ensures Final(g, from, e.1, avoid, s.dist)
  {
    forall p | g.Route(from, e.1, avoid, p) ensures e.0 <= g.Cost(p) {
      var f := FrontierBounds(g, from, avoid, s, e.1, p);
      assert !Sooner(f, e);
    }
  }

  /** Exhaustion: with an empty queue an unsettled vertex has no route at all. */
  lemma ExitEmpty(g: Graph, from: int, to: int, avoid: int, s: Search)
    requires g.Valid() && Explored(g, from, avoid, s, -1, 0) && |s.pq| == 0 && g.Has(to) && to !in s.settled
    ensures Final(g, from, to, avoid, s.dist) && s.dist[to].Infinite?
  {
    forall p | g.Route(from, to, avoid, p) ensures false {
      var f := FrontierBounds(g, from, avoid, s, to, p);
    }
  }

  /** The predecessor of `v` spells out the last step of its recorded route. */
  ghost predicate Linked(from: int, s: Search, prev: seq<int>, v: int)
    requires |prev| == |s.dist| == |s.routes| && 0 <= v < |prev|
  {
    if v == from then prev[v] == -1 && s.routes[v] == [from]
    else 0 <= prev[v] < |prev| && prev[v] in s.settled && s.routes[v] == s.routes[prev[v]] + [v]
  }

  ghost predicate Chained(from: int, s: Search, prev: seq<int>) {
    && |prev| == |s.dist| == |s.routes|
    && forall v {:trigger Linked(from, s, prev, v)} | 0 <= v < |prev| && s.dist[v].Finite? :: Linked(from, s, prev, v)
  }

  lemma ChainStarted(n: nat, from: int)
    requires 0 <= from < n
    ensures Chained(from, Start(n, from), seq(n, _ => -1))
  {}

  lemma ChainKept(from: int, s: Search, t: Search, prev: seq<int>)
    requires Chained(from, s, prev) && t.dist == s.dist && t.routes == s.routes && s.settled <= t.settled
    ensures Chained(from, t, prev)
  {
    forall v | 0 <= v < |prev| && t.dist[v].Finite? ensures Linked(from, t, prev, v) {
      assert Linked(from, s, prev, v);
    }
  }

  /** The recorded route of a final, finite label is the answer; an infinite one means there is none. */
  lemma Answer(g: Graph, from: int, to: int, avoid: int, s: Search)
    requires g.Valid() && g.Has(to) && Explored(g, from, avoid, s, -1, 0) && Final(g, from, to, avoid, s.dist)
    ensures g.Shortest(from, to, avoid, if s.dist[to].Finite? then s.routes[to] else [])
  {
    assert Witnessed(g, from, to, avoid, s.settled, s.dist[to], s.routes[to]);
  }

  lemma Skip(g: Graph, from: int, avoid: int, s: Search, u: int, k: nat)
    requires g.Valid() && Explored(g, from, avoid, s, u, k) && u in s.settled && k < |g.adj[u]|
    requires g.adj[u][k] == avoid || !Improves(s.dist[u].d + g.Length(u, g.adj[u][k]), s.dist[g.adj[u][k]])
    ensures Explored(g, from, avoid, s, u, k + 1)
  {}

  lemma ChainShortened(g: Graph, from: int, s: Search, prev: seq<int>, u: int, k: nat)
    requires g.Valid() && Queued(s) && Chained(from, s, prev) && |s.dist| == g.Size()
    requires u in s.settled && k < |g.adj[u]| && g.adj[u][k] !in s.settled && g.adj[u][k] != from
    ensures Chained(from, Shortened(g, s, u, k), prev[g.adj[u][k] := u])
  {
    var t, now := Shortened(g, s, u, k), prev[g.adj[u][k] := u];
    forall v | 0 <= v < |now| && t.dist[v].Finite? ensures Linked(from, t, now, v) {
      assert v != g.adj[u][k] ==> Linked(from, s, prev, v);
    }
  }

  lemma Expanded(g: Graph, from: int, avoid: int, s: Search, u: int)
    requires g.Valid() && g.Has(u) && Explored(g, from, avoid, s, u, |g.adj[u]|)
    ensures Explored(g, from, avoid, s, -1, 0)
  {}

  ghost function Below(n: nat): (s: set<int>)
    ensures forall v :: v in s <==> 0 <= v < n
  {
    if n == 0 then {} else Below(n - 1) + {n - 1}
  }

  /** The sizes and ranges behind Explored. */
  lemma Extent(g: Graph, from: int, avoid: int, s: Search, u: int, k: int)
    requires g.Valid() && Explored(g, from, avoid, s, u, k)
    ensures |s.dist| == |s.routes| == g.Size() == |g.adj| && Queued(s)
    ensures u in s.settled ==> 0 <= u < g.Size()
    ensures forall x, j | 0 <= x < |g.adj| && 0 <= j < |g.adj[x]| :: 0 <= g.adj[x][j] < g.Size()
    ensures forall x | x in s.settled :: 0 <= x < g.Size() && s.dist[x].Finite?
    ensures forall e | e in s.pq :: 0 <= e.1 < g.Size() && s.dist[e.1].Finite?
  {}

  lemma ChainLength(from: int, s: Search, prev: seq<int>)
    requires Chained(from, s, prev)
    ensures |prev| == |s.dist|
  {}

  /** The expansion of one vertex: relax its lanes in order. */
  method Expand(g: Graph, from: int, avoid: int, u: int, dist0: seq<Dist>, prev0: seq<int>,
                pq0: multiset<(real, int)>, ghost s0: Search)
    returns (dist: seq<Dist>, prev: seq<int>, pq: multiset<(real, int)>, ghost s: Search)
    requires g.Valid() && Explored(g, from, avoid, s0, u, 0) && Chained(from, s0, prev0)
    requires s0.dist == dist0 && s0.pq == pq0
    requires u in s0.settled && s0.dist[u] == Finite(s0.level)
    ensures s.dist == dist && s.pq == pq && s.settled == s0.settled
    ensures Explored(g, from, avoid, s, -1, 0) && Chained(from, s, prev)
  {
    hide Explored, Chained, Queued;
    Extent(g, from, avoid, s0, u, 0);
    dist, prev, pq, s := dist0, prev0, pq0, s0;
    for k := 0 to |g.adj[u]|
      invariant |dist| == g.Size() && 0 <= u < g.Size()
      invariant s.dist == dist && s.pq == pq && s.settled == s0.settled
      invariant Explored(g, from, avoid, s, u, k) && Chained(from, s, prev)
      invariant s.dist[u] == Finite(s.level)
    {
      Extent(g, from, avoid, s, u, k);
      ChainLength(from, s, prev);
      var v := g.adj[u][k];
      if v == avoid {
        Skip(g, from, avoid, s, u, k);
        continue;
      }
      var d := dist[u].d + g.Length(u, v);
      if !Improves(d, dist[v]) {
        Skip(g, from, avoid, s, u, k);
      } else {
        Relax(g, from, avoid, s, u, k);
        ChainShortened(g, from, s, prev, u, k);
        s := Shortened(g, s, u, k);
        dist := dist[v := Finite(d)];
        prev := prev[v := u];
        pq := pq + multiset{(d, v)};
      }
    }
    Expanded(g, from, avoid, s, u);
  }

  function Reversed(p: seq<int>): (r: seq<int>)
    ensures |r| == |p| && forall i | 0 <= i < |p| :: r[i] == p[|p| - 1 - i]
  {
    if p == [] then [] else [p[|p| - 1]] + Reversed(p[..|p| - 1])
  }

  /** Follow the predecessors back to the start. */
  method Rebuild(from: int, to: int, prev: seq<int>, ghost s: Search) returns (path: seq<int>)
    requires Chained(from, s, prev) && 0 <= to < |prev| && s.dist[to].Finite?
    requires forall v | v in s.settled :: 0 <= v < |s.dist| && s.dist[v].Finite?
    ensures path == s.routes[to]
  {
    path := [];
    var cur := to;
    ghost var whole := s.routes[to];
    while cur != -1
      invariant |path| <= |whole|
      invariant cur != -1 ==> 0 <= cur < |prev| && s.dist[cur].Finite?
      invariant whole[..|whole| - |path|] == if cur == -1 then [] else s.routes[cur]
      invariant forall i | 0 <= i < |path| :: path[i] == whole[|whole| - 1 - i]
      decreases |whole| - |path|
    {
      assert Linked(from, s, prev, cur);
      path := path + [cur];
      cur := prev[cur];
    }
    path := Reversed(path);
  }

  method Dijkstra(g: Graph, from: int, to: int, avoid: int := -1) returns (path: seq<int>)
    requires g.Valid()
    ensures g.Shortest(from, to, avoid, path)
  {
    hide Explored, Chained, Queued, Final;
    if !g.Has(from) || !g.Has(to) {
      return [];
    }
    var dist := seq(g.Size(), _ => Infinite)[from := Finite(0.0)];
    var prev := seq(g.Size(), _ => -1);
    var pq := multiset{(0.0, from)};
    ghost var s := Start(g.Size(), from);
    Started(g, from, avoid);
    ChainStarted(g.Size(), from);
    while |pq| > 0
      invariant s.dist == dist && s.pq == pq
      invariant Explored(g, from, avoid, s, -1, 0) && Chained(from, s, prev)
      invariant to !in s.settled
      decreases Below(g.Size()) - s.settled, |pq|
    {
      Extent(g, from, avoid, s, -1, 0);
      var top, rest := PopTop(pq);
      var (d, u) := top;
      pq := rest;
      if d > dist[u].d {
        DropOutdated(g, from, avoid, s, top);
        ChainKept(from, s, s.(pq := pq), prev);
        s := s.(pq := pq);
        continue;
      }
      if u == to {
        ExitEarly(g, from, avoid, s, top);
        break;
      }
      Settle(g, from, avoid, s, top);
      ChainKept(from, s, Settled(s, top), prev);
      s := Settled(s, top);
      dist, prev, pq, s := Expand(g, from, avoid, u, dist, prev, pq, s);
    }
    Extent(g, from, avoid, s, -1, 0);
    ChainLength(from, s, prev);
    if |s.pq| == 0 {
      ExitEmpty(g, from, to, avoid, s);
    }
    Answer(g, from, to, avoid, s);
    if dist[to].Infinite? {
      return [];
    }
    path := Rebuild(from, to, prev, s);
  }

  // ---------------------------------------------------------------- elementary geometry, where the norm is Euclidean

  ghost predicate Euclidean(g: Graph) {
    forall a, b :: g.hypot(a, b) >= 0.0 && g.hypot(a, b) * g.hypot(a, b) == a * a + b * b
  }

  /** What the lengths of the graph are: straight-line distances between the coordinates. */
  lemma LengthIs(g: Graph, u: int, v: int)
    requires g.Has(u) && g.Has(v)
    ensures g.Length(u, v) == g.Distance(u, g.vertices[v].x, g.vertices[v].y)
    ensures Euclidean(g) ==>
              var p, q := g.vertices[u], g.vertices[v];
              && g.Length(u, v) >= 0.0
              && g.Length(u, v) * g.Length(u, v) == (p.x - q.x) * (p.x - q.x) + (p.y - q.y) * (p.y - q.y)
  {}

  lemma DistanceIs(g: Graph, v: int, x: real, y: real)
    requires g.Has(v) && Euclidean(g)
    ensures var p := g.vertices[v];
            g.Distance(v, x, y) >= 0.0
            && g.Distance(v, x, y) * g.Distance(v, x, y) == (p.x - x) * (p.x - x) + (p.y - y) * (p.y - y)
  {}

  /** A path costs the lengths of its steps: nothing without a step, and each further vertex adds the way to it. */
  lemma CostIs(g: Graph, path: seq<int>, v: int)
    requires g.InRange(path) && g.Has(v)
    ensures |path| < 2 ==> g.Cost(path) == 0.0
    ensures path != [] ==> g.InRange(path + [v]) && g.Cost(path + [v]) == g.Cost(path) + g.Length(path[|path| - 1], v)
  {
    assert path != [] ==> (path + [v])[..|path|] == path;
  }

  function SquaredDistance(g: Graph, v: int, x: real, y: real): real
    requires g.Has(v)
  {
    var p := g.vertices[v];
    (p.x - x) * (p.x - x) + (p.y - y) * (p.y - y)
  }

  /** Comparing squared distances is comparing distances. */
  lemma SquaresCompare(g: Graph, u: int, v: int, x: real, y: real)
    requires g.Has(u) && g.Has(v) && Euclidean(g)
    ensures SquaredDistance(g, u, x, y) <= SquaredDistance(g, v, x, y) <==> g.Distance(u, x, y) <= g.Distance(v, x, y)
  {
    var d, e := g.Distance(u, x, y), g.Distance(v, x, y);
    if d <= e {
      Squares(d, e);
    } else {
      StrictSquares(e, d);
    }
  }

  lemma Squares(a: real, b: real)
    requires 0.0 <= a <= b
    ensures a * a <= b * b
  {}

  /** Two points within a radius of a third are less than two radii apart. */
  lemma NearBoth(h: (real, real) -> real, px: real, py: real, qx: real, qy: real, radius: real)
    requires forall a, b :: h(a, b) >= 0.0 && h(a, b) * h(a, b) == a * a + b * b
    requires h(px, py) < radius && h(qx, qy) < radius
    ensures h(qx - px, qy - py) < 2.0 * radius
  {
    var d := h(qx - px, qy - py);
    var e, f := h(px, py), h(qx, qy);
    assert e * e == px * px + py * py && f * f == qx * qx + qy * qy;
    assert d * d == (qx - px) * (qx - px) + (qy - py) * (qy - py);
    SumOfSquares(px, py, qx, qy);
    assert d * d <= 2.0 * (e * e) + 2.0 * (f * f);
    assert e * e < radius * radius && f * f < radius * radius by {
      StrictSquares(e, radius);
      StrictSquares(f, radius);
    }
    if d >= 2.0 * radius {
      Squares(2.0 * radius, d);
      assert false;
    }
  }

  lemma Positive(a: real, b: real)
    ensures a > 0.0 && b > 0.0 ==> a * b > 0.0
    ensures a * a >= 0.0
  {}

  lemma StrictSquares(a: real, b: real)
    requires 0.0 <= a < b
    ensures a * a < b * b
  {
    Positive(b - a, b + a);
    assert (b - a) * (b + a) == b * b - a * a;
  }

  lemma SumOfSquares(px: real, py: real, qx: real, qy: real)
    ensures (qx - px) * (qx - px) + (qy - py) * (qy - py) <= 2.0 * (px * px + py * py) + 2.0 * (qx * qx + qy * qy)
  {
    Parallelogram(px, qx);
    Parallelogram(py, qy);
  }

  lemma Parallelogram(p: real, q: real)
    ensures (q - p) * (q - p) <= 2.0 * (p * p) + 2.0 * (q * q)
  {
    Positive(q + p, 0.0);
    assert (q + p) * (q + p) == q * q + 2.0 * (q * p) + p * p;
    assert (q - p) * (q - p) == q * q - 2.0 * (q * p) + p * p;
  }
}
