/** The automatic patrol route: a walk along the boundary that always turns as far right as it can. */
module PatrolCycle {
  import opened Navgraph
  import opened Patrol

  /** A drawn graph: `angle(u, v)` is the direction of `v` seen from `u`, in (-half, half] for half a turn. */
  datatype Drawing = Drawing(g: Graph, half: real, angle: (int, int) -> real) {

    /** Any graph, with any directions. */
    ghost predicate Drawn() {
      g.Valid() && half > 0.0 && forall u, v :: -half < angle(u, v) <= half
    }

    /** Lanes go both ways, and different neighbours lie in different directions. */
    ghost predicate Valid() {
      && Drawn()
      && (forall u, v {:trigger g.Lane(u, v)} :: g.Lane(u, v) ==> g.Lane(v, u) && u != v)
      && (forall u, v, w | g.Lane(u, v) && g.Lane(u, w) && v != w :: angle(u, v) != angle(u, w))
    }

    /** A turn reduced to [0, 2 * half). */
    function Norm(a: real): real {
      if a < 0.0 then a + 2.0 * half else if a >= 2.0 * half then a - 2.0 * half else a
    }

    /** Clockwise turn from looking back to the direction `a`; looking back itself comes last. */
    function Rel(back: real, a: real): real {
      var r := Norm(back - a);
      if r <= 0.0 then r + 2.0 * half else r
    }
  }

  type Dart = (int, int)

  ghost predicate IsDart(c: Drawing, d: Dart)
    requires c.Valid()
  {
    c.g.Lane(d.0, d.1)
  }

  /** `best` is the rightmost neighbour of `cur`; the previous vertex only if there is no other. */
  ghost predicate Rightmost(c: Drawing, cur: int, prev: int, back: real, best: int)
    requires c.Drawn()
  {
    && c.g.Lane(cur, best)
    && forall v {:trigger c.g.Lane(cur, v)} | c.g.Lane(cur, v) && v != prev ::
         best != prev && c.Rel(back, c.angle(cur, best)) <= c.Rel(back, c.angle(cur, v))
  }

  lemma RightmostUnique(c: Drawing, cur: int, prev: int, back: real, a: int, b: int)
    requires c.Valid() && -c.half < back <= c.half
    requires Rightmost(c, cur, prev, back, a) && Rightmost(c, cur, prev, back, b)
    ensures a == b
  {
    assert a != b ==> c.angle(cur, a) != c.angle(cur, b);
  }

  /** The direction of the vertex the walk came from; before the first step, as if it had come from the west. */
  function Back(c: Drawing, cur: int, prev: int): real {
    if prev < 0 then c.half else c.angle(cur, prev)
  }

  /** Every candidate listed before position `k` lies further to the left. */
  predicate Earliest(c: Drawing, cur: int, prev: int, k: int)
    requires c.g.Has(cur) && |c.g.adj| == |c.g.vertices| && 0 <= k < |c.g.adj[cur]|
  {
    var nb, back := c.g.adj[cur], Back(c, cur, prev);
    nb[k] != prev ==>
      forall j | 0 <= j < k && nb[j] != prev ::
        c.Rel(back, c.angle(cur, nb[k])) < c.Rel(back, c.angle(cur, nb[j]))
  }

  /** The program's next vertex: a rightmost one, and of several in one direction the one listed first. */
  ghost predicate Chosen(c: Drawing, cur: int, prev: int, best: int)
    requires c.Drawn()
  {
    && Rightmost(c, cur, prev, Back(c, cur, prev), best)
    && exists k :: 0 <= k < |c.g.adj[cur]| && c.g.adj[cur][k] == best && Earliest(c, cur, prev, k)
  }

  lemma ChosenUnique(c: Drawing, cur: int, prev: int, a: int, b: int)
    requires c.Drawn() && Chosen(c, cur, prev, a) && Chosen(c, cur, prev, b)
    ensures a == b
  {
    assert c.g.Lane(cur, a) && c.g.Lane(cur, b);
  }

  function FullTurns(c: Drawing, k: int): real { k as real * (2.0 * c.half) }

  /** `a0` is `a` and `k` full turns. */
  predicate TurnsApart(c: Drawing, a0: real, a: real, k: int) {
    a0 == a + FullTurns(c, k)
  }

  /** The reduction loops of the program. */
  method Norm2Pi(c: Drawing, a0: real) returns (a: real)
    requires c.half > 0.0
    ensures 0.0 <= a < 2.0 * c.half && exists k: int :: TurnsApart(c, a0, a, k)
  {
    hide FullTurns;
    a := a0;
    ghost var k: int, n: nat := 0, Enough(c, -a0);
    OneTurn(c, 0);
    while a < 0.0
      invariant TurnsApart(c, a0, a, k) && a + FullTurns(c, n) >= 0.0
      decreases n
    {
      OneTurn(c, k - 1);
      OneTurn(c, n - 1);
      a, k, n := a + 2.0 * c.half, k - 1, n - 1;
    }
    n := Enough(c, a);
    while a >= 2.0 * c.half
      invariant TurnsApart(c, a0, a, k) && 0.0 <= a <= FullTurns(c, n)
      decreases n
    {
      OneTurn(c, k);
      OneTurn(c, n - 1);
      a, k, n := a - 2.0 * c.half, k + 1, n - 1;
    }
  }

  lemma OneTurn(c: Drawing, k: int)
    ensures FullTurns(c, 0) == 0.0 && FullTurns(c, k + 1) == FullTurns(c, k) + 2.0 * c.half
  {}

  lemma {:induction false} MoreTurns(c: Drawing, i: int, j: int)
    requires c.half > 0.0 && i <= j
    ensures FullTurns(c, i) <= FullTurns(c, j)
    decreases j - i
  {
    if i < j {
      OneTurn(c, j - 1);
      hide FullTurns;
      MoreTurns(c, i, j - 1);
    }
  }

  /** So many full turns are at least the angle `a`. */
  ghost function Enough(c: Drawing, a: real): (n: nat)
    requires c.half > 0.0
    ensures FullTurns(c, n) >= a
  {
    if a <= 0.0 then 0
    else
      var n := (a / (2.0 * c.half)).Floor + 1;
      Covers(2.0 * c.half, a, n as real);
      n
  }

  lemma Covers(turn: real, a: real, n: real)
    requires turn > 0.0 && n >= a / turn
    ensures n * turn >= a
  {
    var q := a / turn;
    assert q * turn == a;
    assert (n - q) * turn >= 0.0;
    assert (n - q) * turn == n * turn - q * turn;
  }

  /** Within one turn to the left and two to the right the reduced angle is the one that the case split names. */
  lemma ReducedIs(c: Drawing, a0: real, a: real)
    requires c.half > 0.0 && -2.0 * c.half <= a0 < 4.0 * c.half
    requires 0.0 <= a < 2.0 * c.half && exists k: int :: TurnsApart(c, a0, a, k)
    ensures a == c.Norm(a0)
  {
    var k: int :| TurnsApart(c, a0, a, k);
    OneTurn(c, -2);
    OneTurn(c, -1);
    OneTurn(c, 0);
    OneTurn(c, 1);
    hide FullTurns;
    if k >= 2 {
      MoreTurns(c, 2, k);
    } else if k <= -2 {
      MoreTurns(c, k, -2);
    }
  }

  /** The inner loop: the next vertex, or -1 where there is none. */
  method TurnRight(c: Drawing, cur: int, prev: int, back: real) returns (best: int)
    requires c.Drawn() && c.g.Has(cur) && back == Back(c, cur, prev)
    ensures best >= 0 ==> Chosen(c, cur, prev, best)
    ensures best < 0 ==> NoWayOn(c, cur)
  {
    var nb := c.g.adj[cur];
    best := -1;
    var bestRel := 0.0;
    var fallback := -1;
    ghost var at := 0;
    for k := 0 to |nb|
      invariant best < 0 ==> forall j | 0 <= j < k :: nb[j] == prev
      invariant best >= 0 ==> 0 <= at < k && nb[at] == best != prev && bestRel == c.Rel(back, c.angle(cur, best))
      invariant best >= 0 ==> forall j | 0 <= j < k && nb[j] != prev :: bestRel <= c.Rel(back, c.angle(cur, nb[j]))
      invariant best >= 0 ==> forall j | 0 <= j < at && nb[j] != prev :: bestRel < c.Rel(back, c.angle(cur, nb[j]))
      invariant fallback >= 0 ==> fallback in nb && fallback == prev
      invariant fallback < 0 ==> forall j | 0 <= j < k :: nb[j] != prev
    {
      var v := nb[k];
      assert c.g.Has(c.g.adj[cur][k]);
      var rel := Norm2Pi(c, back - c.angle(cur, v));
      ReducedIs(c, back - c.angle(cur, v), rel);
      if rel <= 0.0 {
        rel := rel + 2.0 * c.half;
      }
      if v == prev {
        fallback := v;
        continue;
      }
      if best < 0 || rel < bestRel {
        bestRel, best, at := rel, v, k;
      }
    }
    if best < 0 {
      best := fallback;
    } else {
      assert Earliest(c, cur, prev, at);
    }
  }

  // ---------------------------------------------------------------- what right means

  /**
   Turning clockwise from looking back, directions fall from `back` to due west and then on from due west again,
   looking back itself coming last. No other candidate is met before the chosen one.
   */
  lemma RightmostIsClockwise(c: Drawing, cur: int, prev: int, back: real, best: int, v: int)
    requires c.Drawn() && -c.half < back <= c.half && Rightmost(c, cur, prev, back, best)
    requires c.g.Lane(cur, v) && v != prev
    ensures best != prev
    ensures var p, q := c.angle(cur, best), c.angle(cur, v);
            if p < back then !(p < q < back) else !(q < back) && !(q > p)
  {}

  /** So turns the walk after its first step: from the direction of the vertex it came from. */
  lemma ChosenIsClockwise(c: Drawing, cur: int, prev: int, best: int, v: int)
    requires c.Drawn() && prev >= 0 && Chosen(c, cur, prev, best) && c.g.Lane(cur, v) && v != prev
    ensures best != prev
    ensures var back, p, q := c.angle(cur, prev), c.angle(cur, best), c.angle(cur, v);
            if p < back then !(p < q < back) else !(q < back) && !(q > p)
  {
    RightmostIsClockwise(c, cur, prev, c.angle(cur, prev), best, v);
  }

  /** Of several candidates in one direction the walk takes the one listed first. */
  lemma TiesByListing(c: Drawing, cur: int, prev: int, best: int, j: nat)
    requires c.Drawn() && Chosen(c, cur, prev, best) && j < |c.g.adj[cur]|
    requires c.g.adj[cur][j] != prev && c.angle(cur, c.g.adj[cur][j]) == c.angle(cur, best)
    ensures exists i :: 0 <= i <= j && c.g.adj[cur][i] == best
  {
    var k :| 0 <= k < |c.g.adj[cur]| && c.g.adj[cur][k] == best && Earliest(c, cur, prev, k);
    assert c.g.Lane(cur, c.g.adj[cur][j]);
  }

  /** Its first step heads for the neighbour first met clockwise from due west: that with the largest angle but west. */
  lemma FirstIsClockwise(c: Drawing, start: int, best: int, v: int)
    requires c.Drawn() && Chosen(c, start, -1, best) && c.g.Lane(start, v)
    ensures c.angle(start, best) < c.half ==> c.angle(start, v) <= c.angle(start, best) || c.angle(start, v) == c.half
    ensures c.angle(start, best) == c.half ==> c.angle(start, v) == c.half
  {
    assert c.g.Has(v);
    RightmostIsClockwise(c, start, -1, c.half, best, v);
  }

  // ---------------------------------------------------------------- the step on directed lanes

  lemma {:induction false} RightmostExists(c: Drawing, cur: int, prev: int, back: real, n: nat) returns (best: int)
    requires c.Valid() && c.g.Has(cur) && 0 < n <= |c.g.adj[cur]|
    ensures best in c.g.adj[cur][..n]
    ensures forall j | 0 <= j < n && c.g.adj[cur][j] != prev ::
              best != prev && c.Rel(back, c.angle(cur, best)) <= c.Rel(back, c.angle(cur, c.g.adj[cur][j]))
  {
    var nb := c.g.adj[cur];
    if n == 1 {
      best := nb[0];
    } else {
      best := RightmostExists(c, cur, prev, back, n - 1);
      var v := nb[n - 1];
      if v != prev && (best == prev || c.Rel(back, c.angle(cur, v)) < c.Rel(back, c.angle(cur, best))) {
        best := v;
      }
    }
  }

  lemma HasRightmost(c: Drawing, cur: int, prev: int, back: real)
    requires c.Valid() && exists v :: c.g.Lane(cur, v)
    ensures exists best :: Rightmost(c, cur, prev, back, best)
  {
    var v :| c.g.Lane(cur, v);
    var best := RightmostExists(c, cur, prev, back, |c.g.adj[cur]|);
    assert Rightmost(c, cur, prev, back, best);
  }

  /** The lane the walk takes after the lane `d`. */
  ghost function Turn(c: Drawing, d: Dart): (e: Dart)
    requires c.Valid() && IsDart(c, d)
    ensures IsDart(c, e) && e.0 == d.1 && Rightmost(c, d.1, d.0, c.angle(d.1, d.0), e.1)
  {
    assert c.g.Lane(d.1, d.0);
    HasRightmost(c, d.1, d.0, c.angle(d.1, d.0));
    var best :| Rightmost(c, d.1, d.0, c.angle(d.1, d.0), best);
    (d.1, best)
  }

  /** Turning right from two different lanes into one vertex never leads into the same lane. */
  lemma TurnInjective(c: Drawing, d: Dart, e: Dart)
    requires c.Valid() && IsDart(c, d) && IsDart(c, e) && Turn(c, d) == Turn(c, e)
    ensures d == e
  {
    if d != e {
      var v, p, q, b := d.1, d.0, e.0, Turn(c, d).1;
      assert c.g.Lane(v, p) && c.g.Lane(v, q) && c.g.Lane(v, b);
      assert c.angle(v, p) != c.angle(v, q);
      assert b != q ==> c.angle(v, b) != c.angle(v, q);
      assert b != p ==> c.angle(v, b) != c.angle(v, p);
      RightTurnsDiffer(c, c.angle(v, p), c.angle(v, q), c.angle(v, b));
    }
  }

  /** If `b` comes before `q` turning from `p`, it does not come before `p` turning from `q`. */
  lemma RightTurnsDiffer(c: Drawing, p: real, q: real, b: real)
    requires -c.half < p <= c.half && -c.half < q <= c.half && -c.half < b <= c.half
    requires p != q && q != b && p != b && c.half > 0.0
    ensures !(c.Rel(p, b) <= c.Rel(p, q) && c.Rel(q, b) <= c.Rel(q, p))
  {}

  // ---------------------------------------------------------------- the walk comes back

  /** The n-th lane of the walk that begins with `d`. */
  ghost function Walked(c: Drawing, d: Dart, n: nat): (e: Dart)
    requires c.Valid() && IsDart(c, d)
    ensures IsDart(c, e)
  {
    if n == 0 then d else Turn(c, Walked(c, d, n - 1))
  }

  /** Equal lanes at two times were equal all along: the walk has no tail. */
  lemma {:induction false} NoTail(c: Drawing, d: Dart, i: nat, j: nat)
    requires c.Valid() && IsDart(c, d) && i < j && Walked(c, d, i) == Walked(c, d, j)
    ensures Walked(c, d, j - i) == d
  {
    if i > 0 {
      TurnInjective(c, Walked(c, d, i - 1), Walked(c, d, j - 1));
      NoTail(c, d, i - 1, j - 1);
    }
  }

  ghost function Lanes(g: Graph): (ls: set<Dart>)
    requires g.Valid()
    ensures forall d :: d in ls <==> g.Lane(d.0, d.1)
  {
    set u, v | 0 <= u < |g.adj| && v in g.adj[u] :: (u, v)
  }

  /** Distinct members of a finite set are no more than its size. */
  lemma {:induction false} Pigeonhole<T>(xs: seq<T>, a: set<T>)
    requires forall i | 0 <= i < |xs| :: xs[i] in a
    requires forall i, j | 0 <= i < j < |xs| :: xs[i] != xs[j]
    ensures |xs| <= |a|
    decreases |xs|
  {
    if xs != [] {
      Pigeonhole(xs[1..], a - {xs[0]});
    }
  }

  /** Without a step limit the walk takes its first lane again after at most as many steps as there are lanes. */
  lemma WalkReturns(c: Drawing, d: Dart) returns (n: nat)
    requires c.Valid() && IsDart(c, d)
    ensures 0 < n <= |Lanes(c.g)| && Walked(c, d, n) == d
  {
    var m := |Lanes(c.g)|;
    if n: nat :| 0 < n <= m && Walked(c, d, n) == d {
      return n;
    } else {
      var walk := seq(m + 1, i requires 0 <= i => Walked(c, d, i));
      forall i, j | 0 <= i < j < |walk| ensures walk[i] != walk[j] {
        if walk[i] == walk[j] {
          NoTail(c, d, i, j);
        }
      }
      Pigeonhole(walk, Lanes(c.g));
    }
  }

  /** The walk leads back to the vertex it began at for the first time in its k-th step. */
  ghost predicate ComesBack(c: Drawing, d: Dart, k: nat)
    requires c.Valid() && IsDart(c, d)
  {
    Walked(c, d, k).1 == d.0 && forall i | 0 <= i < k :: Walked(c, d, i).1 != d.0
  }

  lemma {:induction false} FirstVisit(c: Drawing, d: Dart, n: nat) returns (k: nat)
    requires c.Valid() && IsDart(c, d) && Walked(c, d, n).1 == d.0
    ensures k <= n && ComesBack(c, d, k)
  {
    if i: int :| 0 <= i < n && Walked(c, d, i).1 == d.0 {
      k := FirstVisit(c, d, i);
    } else {
      k := n;
    }
  }

  lemma ComesBackInTime(c: Drawing, d: Dart) returns (k: nat)
    requires c.Valid() && IsDart(c, d)
    ensures 0 < k < |Lanes(c.g)| && ComesBack(c, d, k)
  {
    var n := WalkReturns(c, d);
    assert Walked(c, d, n - 1).1 == Walked(c, d, n).0;
    k := FirstVisit(c, d, n - 1);
    assert c.g.Lane(d.0, d.1);
  }

  // ---------------------------------------------------------------- the program's walk

  predicate Above(c: Drawing, u: int, v: int)
    requires c.g.Has(u) && c.g.Has(v)
  {
    var a, b := c.g.vertices[u], c.g.vertices[v];
    a.y > b.y || (a.y == b.y && a.x < b.x)
  }

  /** Topmost, among the topmost leftmost, and the first of those. */
  predicate Corner(c: Drawing, start: int, n: nat)
    requires n <= c.g.Size()
  {
    && 0 <= start < n
    && (forall v | 0 <= v < n :: !Above(c, v, start))
    && (forall v | 0 <= v < start :: Above(c, start, v))
  }

  method StartVertex(c: Drawing) returns (start: int)
    requires c.g.Size() > 0
    ensures Corner(c, start, c.g.Size())
  {
    start := 0;
    for i := 1 to c.g.Size()
      invariant Corner(c, start, i)
    {
      if Above(c, i, start) {
        forall v | 0 <= v < i ensures Above(c, i, v) && !Above(c, v, i) {
          assert !Above(c, v, start);
        }
        start := i;
      }
    }
  }

  /** The lane the walk begins with: from the corner, the rightmost one seen when heading east. */
  ghost predicate First(c: Drawing, d: Dart)
    requires c.Valid()
  {
    IsDart(c, d) && Corner(c, d.0, c.g.Size()) && Rightmost(c, d.0, -1, c.half, d.1)
  }

  /** The corner is topmost, of the topmost ones leftmost, and the first listed at its place. */
  lemma CornerIs(c: Drawing, start: int, v: int)
    requires Corner(c, start, c.g.Size()) && 0 <= v < c.g.Size()
    ensures var p, q := c.g.vertices[start], c.g.vertices[v];
            p.y > q.y || (p.y == q.y && (p.x < q.x || (p.x == q.x && start <= v)))
  {
    assert !Above(c, v, start) && (v < start ==> Above(c, start, v));
  }

  lemma CornerUnique(c: Drawing, a: int, b: int)
    requires Corner(c, a, c.g.Size()) && Corner(c, b, c.g.Size())
    ensures a == b
  {
    var lo, hi := if a < b then a else b, if a < b then b else a;
    assert !Above(c, hi, lo);
  }

  lemma FirstUnique(c: Drawing, d: Dart, e: Dart)
    requires c.Valid() && First(c, d) && First(c, e)
    ensures d == e
  {
    CornerUnique(c, d.0, e.0);
    RightmostUnique(c, d.0, -1, c.half, d.1, e.1);
  }

  // ---------------------------------------------------------------- the program's walk, on any graph

  /** The vertex before position `k`; -1 before the first. */
  function Previous(tr: seq<int>, k: nat): int
    requires k < |tr|
  {
    if k == 0 then -1 else tr[k - 1]
  }

  /** `tr[k + 1]` is the next vertex of the walk, and not the one it started at. */
  ghost predicate GoesOn(c: Drawing, tr: seq<int>, k: nat)
    requires c.Drawn() && k + 1 < |tr|
  {
    Chosen(c, tr[k], Previous(tr, k), tr[k + 1]) && tr[k + 1] != tr[0]
  }

  /** A part of the walk from the corner that does not lead back to it. */
  ghost predicate Trace(c: Drawing, tr: seq<int>)
    requires c.Drawn()
  {
    |tr| > 0 && Corner(c, tr[0], c.g.Size()) && forall k: nat | k + 1 < |tr| :: GoesOn(c, tr, k)
  }

  ghost predicate LeadsBack(c: Drawing, tr: seq<int>)
    requires c.Drawn() && |tr| > 0
  {
    Chosen(c, tr[|tr| - 1], Previous(tr, |tr| - 1), tr[0])
  }

  ghost predicate DeadEnd(c: Drawing, tr: seq<int>)
    requires c.Drawn() && |tr| > 0
  {
    NoWayOn(c, tr[|tr| - 1])
  }

  ghost predicate NoWayOn(c: Drawing, v: int)
    requires c.Drawn()
  {
    forall w :: !c.g.Lane(v, w)
  }

  /** `tr` is where the walk ends: back at its start, at a dead end, or at the step limit. */
  ghost predicate Ended(c: Drawing, tr: seq<int>)
    requires c.Drawn()
  {
    && Trace(c, tr)
    && if |tr| <= 4 * c.g.Size() + 4 then LeadsBack(c, tr) || DeadEnd(c, tr) else |tr| == 4 * c.g.Size() + 5
  }

  /** The answer: the walk where it ended, unless that is a dead end or too short. */
  ghost predicate Outcome(c: Drawing, cycle: seq<int>)
    requires c.Drawn()
  {
    if c.g.Size() < 3 then cycle == []
    else exists tr :: Ended(c, tr) && cycle == if |tr| < 3 || (Short(c, tr) && DeadEnd(c, tr)) then [] else tr
  }

  predicate Short(c: Drawing, tr: seq<int>) {
    |tr| <= 4 * c.g.Size() + 4
  }

  method RightHandBoundaryCycle(c: Drawing) returns (cycle: seq<int>)
    requires c.Drawn()
    ensures Outcome(c, cycle)
  {
    var n := c.g.Size();
    if n < 3 {
      return [];
    }
    var start := StartVertex(c);
    cycle := [start];
    var cur, prev, back := start, -1, c.half;
    var maxSteps := 4 * n + 4;
    hide Corner, Chosen;
    for step := 0 to maxSteps
      invariant |cycle| == step + 1 && cycle[0] == start && Trace(c, cycle)
      invariant cur == cycle[step] && prev == Previous(cycle, step) && back == Back(c, cur, prev) && c.g.Has(cur)
    {
      var best := TurnRight(c, cur, prev, back);
      if best < 0 {
        assert DeadEnd(c, cycle) && Ended(c, cycle);
        return [];
      }
      if best == start {
        assert LeadsBack(c, cycle);
        break;
      }
      ChosenInRange(c, cur, prev, best);
      Extend(c, cycle, best);
      cycle := cycle + [best];
      back := c.angle(best, cur);
      prev := cur;
      cur := best;
    }
    assert Ended(c, cycle);
    if |cycle| < 3 {
      return [];
    }
  }

  lemma ChosenInRange(c: Drawing, cur: int, prev: int, best: int)
    requires c.Drawn() && Chosen(c, cur, prev, best)
    ensures c.g.Has(cur) && c.g.Has(best)
  {
    assert c.g.Lane(cur, best);
  }

  lemma Extend(c: Drawing, tr: seq<int>, best: int)
    requires c.Drawn() && Trace(c, tr) && best != tr[0] && Chosen(c, tr[|tr| - 1], Previous(tr, |tr| - 1), best)
    ensures Trace(c, tr + [best])
  {
    hide Chosen, Corner;
    var longer := tr + [best];
    forall k: nat | k + 1 < |longer| ensures GoesOn(c, longer, k) {
      if k + 1 < |tr| {
        assert GoesOn(c, tr, k);
      }
    }
  }

  /** The walk is determined: two traces agree as far as both go. */
  lemma {:induction false} TracesAgree(c: Drawing, a: seq<int>, b: seq<int>, k: nat)
    requires c.Drawn() && Trace(c, a) && Trace(c, b) && k < |a| && k < |b|
    ensures a[k] == b[k] && Previous(a, k) == Previous(b, k)
  {
    if k == 0 {
      CornerUnique(c, a[0], b[0]);
    } else {
      TracesAgree(c, a, b, k - 1);
      assert GoesOn(c, a, k - 1) && GoesOn(c, b, k - 1);
      ChosenUnique(c, a[k - 1], Previous(a, k - 1), a[k], b[k]);
    }
  }

  /** Where the walk ends is determined too. */
  lemma EndsOnce(c: Drawing, a: seq<int>, b: seq<int>)
    requires c.Drawn() && Ended(c, a) && Ended(c, b)
    ensures |a| >= |b|
  {
    if |a| < |b| {
      var k := |a| - 1;
      TracesAgree(c, a, b, 0);
      TracesAgree(c, a, b, k);
      assert GoesOn(c, b, k);
      assert c.g.Lane(a[k], b[k + 1]);
      if LeadsBack(c, a) {
        ChosenUnique(c, a[k], Previous(a, k), a[0], b[k + 1]);
      }
    }
  }

  /** So the answer is the only one that meets the contract: on every graph, the contract is the program. */
  lemma OutcomeUnique(c: Drawing, x: seq<int>, y: seq<int>)
    requires c.Drawn() && Outcome(c, x) && Outcome(c, y)
    ensures x == y
  {
    if c.g.Size() >= 3 {
      hide Ended, DeadEnd;
      var a :| Ended(c, a) && x == if |a| < 3 || (Short(c, a) && DeadEnd(c, a)) then [] else a;
      var b :| Ended(c, b) && y == if |b| < 3 || (Short(c, b) && DeadEnd(c, b)) then [] else b;
      SameEnd(c, a, b);
    }
  }

  lemma SameEnd(c: Drawing, a: seq<int>, b: seq<int>)
    requires c.Drawn() && Ended(c, a) && Ended(c, b)
    ensures a == b
  {
    EndsOnce(c, a, b);
    EndsOnce(c, b, a);
    forall k: nat | k < |a| ensures a[k] == b[k] {
      TracesAgree(c, a, b, k);
    }
  }

  // ---------------------------------------------------------------- on a drawing the walk is a boundary

  /** The walk's vertices: where it starts and the end of each of its first lanes. */
  ghost predicate Follows(c: Drawing, d: Dart, cycle: seq<int>)
    requires c.Valid() && IsDart(c, d)
  {
    |cycle| > 0 && cycle[0] == d.0 && forall k | 0 < k < |cycle| :: cycle[k] == Walked(c, d, k - 1).1
  }

  lemma FirstOfTrace(c: Drawing, tr: seq<int>)
    requires c.Valid() && Trace(c, tr) && |tr| > 1
    ensures First(c, (tr[0], tr[1]))
  {
    assert GoesOn(c, tr, 0);
  }

  lemma {:induction false} TraceWalks(c: Drawing, tr: seq<int>, k: nat)
    requires c.Valid() && Trace(c, tr) && k + 1 < |tr|
    ensures First(c, (tr[0], tr[1])) && Walked(c, (tr[0], tr[1]), k) == (tr[k], tr[k + 1])
  {
    FirstOfTrace(c, tr);
    if k > 0 {
      TraceWalks(c, tr, k - 1);
      assert GoesOn(c, tr, k);
      hide Trace, Corner, Walked;
      StepWalks(c, (tr[0], tr[1]), k, tr[k + 1]);
    }
  }

  lemma StepWalks(c: Drawing, d: Dart, k: nat, best: int)
    requires c.Valid() && IsDart(c, d) && k > 0
    requires var e := Walked(c, d, k - 1);
             e.0 >= 0 && Chosen(c, e.1, e.0, best)
    ensures Walked(c, d, k) == (Walked(c, d, k - 1).1, best)
  {
    var e := Walked(c, d, k - 1);
    RightmostUnique(c, e.1, e.0, c.angle(e.1, e.0), Turn(c, e).1, best);
  }

  /** `cycle` is the walk from `d` up to its first return, or its first `limit` lanes if that comes later. */
  ghost predicate RouteOf(c: Drawing, d: Dart, limit: nat, cycle: seq<int>)
    requires c.Valid() && IsDart(c, d)
  {
    && Follows(c, d, cycle)
    && |cycle| <= limit + 1
    && (forall i | 0 <= i < |cycle| - 1 :: Walked(c, d, i).1 != d.0)
    && (|cycle| <= limit ==> Walked(c, d, |cycle| - 1).1 == d.0)
  }

  /**
   On a drawing, a nonempty answer is the route of the walk that begins with the rightmost lane at the corner,
   and the answer is empty only for fewer than three vertices, an isolated corner or a walk that turns back at once.
   */
  lemma AnswerIsRoute(c: Drawing, cycle: seq<int>)
    requires c.Valid() && Outcome(c, cycle)
    ensures cycle != [] ==> |cycle| >= 3 && exists d: Dart :: First(c, d) && RouteOf(c, d, 4 * c.g.Size() + 4, cycle)
    ensures cycle == [] ==> c.g.Size() < 3 || forall d | First(c, d) :: ComesBack(c, d, 1)
  {
    if c.g.Size() >= 3 {
      hide Ended, DeadEnd, ComesBack, RouteOf, First;
      var tr :| Ended(c, tr) && cycle == if |tr| < 3 || (Short(c, tr) && DeadEnd(c, tr)) then [] else tr;
      if |tr| > 1 {
        NoDeadEnd(c, tr);
        EndIsRoute(c, tr);
      } else {
        OnlyCorner(c, tr);
      }
      if |tr| == 2 {
        TurnsBack(c, tr);
      }
    }
  }

  lemma NoDeadEnd(c: Drawing, tr: seq<int>)
    requires c.Valid() && Trace(c, tr) && |tr| > 1
    ensures !DeadEnd(c, tr)
  {
    assert GoesOn(c, tr, |tr| - 2);
    assert c.g.Lane(tr[|tr| - 2], tr[|tr| - 1]) && c.g.Lane(tr[|tr| - 1], tr[|tr| - 2]);
  }

  /** Only an isolated corner ends a walk of one vertex. */
  lemma OnlyCorner(c: Drawing, tr: seq<int>)
    requires c.Valid() && Ended(c, tr) && |tr| == 1
    ensures forall d: Dart :: !First(c, d)
  {
    assert !c.g.Lane(tr[0], tr[0]);
    forall d: Dart | First(c, d) ensures false {
      CornerUnique(c, d.0, tr[0]);
    }
  }

  lemma EndIsRoute(c: Drawing, tr: seq<int>)
    requires c.Valid() && Ended(c, tr) && |tr| > 1
    ensures First(c, (tr[0], tr[1])) && RouteOf(c, (tr[0], tr[1]), 4 * c.g.Size() + 4, tr)
  {
    var d := (tr[0], tr[1]);
    FirstOfTrace(c, tr);
    TraceFollows(c, tr);
    if |tr| <= 4 * c.g.Size() + 4 {
      NoDeadEnd(c, tr);
      TraceWalks(c, tr, |tr| - 2);
      assert c.g.Lane(tr[|tr| - 2], tr[|tr| - 1]);
      hide Trace, Corner, Walked, Follows, First, DeadEnd;
      StepWalks(c, d, |tr| - 1, tr[0]);
    }
  }

  lemma TraceFollows(c: Drawing, tr: seq<int>)
    requires c.Valid() && Trace(c, tr) && |tr| > 1
    ensures First(c, (tr[0], tr[1])) && Follows(c, (tr[0], tr[1]), tr)
    ensures forall i | 0 <= i < |tr| - 1 :: Walked(c, (tr[0], tr[1]), i).1 != tr[0]
  {
    var d := (tr[0], tr[1]);
    FirstOfTrace(c, tr);
    forall i | 0 <= i < |tr| - 1 ensures Walked(c, d, i).1 == tr[i + 1] && Walked(c, d, i).1 != tr[0] {
      TraceWalks(c, tr, i);
      assert GoesOn(c, tr, i);
    }
    forall k | 0 < k < |tr| ensures tr[k] == Walked(c, d, k - 1).1 {
      TraceWalks(c, tr, k - 1);
    }
  }

  lemma TurnsBack(c: Drawing, tr: seq<int>)
    requires c.Valid() && |tr| == 2 && First(c, (tr[0], tr[1])) && RouteOf(c, (tr[0], tr[1]), 4 * c.g.Size() + 4, tr)
    ensures forall d | First(c, d) :: ComesBack(c, d, 1)
  {
    forall d | First(c, d) ensures d == (tr[0], tr[1]) {
      FirstUnique(c, d, (tr[0], tr[1]));
    }
  }

  /** Unless the step limit cut it short, the route is a closed lane walk. */
  lemma RouteCloses(c: Drawing, d: Dart, limit: nat, cycle: seq<int>)
    requires c.Valid() && IsDart(c, d) && RouteOf(c, d, limit, cycle) && |cycle| >= 2
    ensures forall k | 0 < k < |cycle| :: c.g.Lane(cycle[k - 1], cycle[k])
    ensures ClosedWalk(c.g, cycle) <==> c.g.Lane(cycle[|cycle| - 1], d.0)
    ensures |cycle| <= limit ==> ClosedWalk(c.g, cycle)
    ensures |Lanes(c.g)| <= limit ==> |cycle| <= limit
  {
    forall k | 0 < k < |cycle| ensures c.g.Lane(cycle[k - 1], cycle[k]) {
      StepOfRoute(c, d, cycle, k);
    }
    assert c.g.InRange(cycle);
    if |cycle| <= limit {
      assert Walked(c, d, |cycle| - 1).0 == Walked(c, d, |cycle| - 2).1 == cycle[|cycle| - 1];
    }
    var k := ComesBackInTime(c, d);
    forall i | 0 <= i < |cycle| ensures i + 1 < |cycle| ==> c.g.Lane(cycle[i], Next(cycle, i)) {}
    assert Next(cycle, |cycle| - 1) == d.0;
  }

  /**
   What the fleet node needs of its route: a nonempty answer is a closed lane walk unless the step limit cut it
   short, so always on a graph with at most 4n + 4 directed lanes.
   */
  lemma AnswerCloses(c: Drawing, cycle: seq<int>)
    requires c.Valid() && Outcome(c, cycle) && cycle != []
    ensures |cycle| <= 4 * c.g.Size() + 4 ==> ClosedWalk(c.g, cycle)
    ensures |Lanes(c.g)| <= 4 * c.g.Size() + 4 ==> ClosedWalk(c.g, cycle)
  {
    AnswerIsRoute(c, cycle);
    var d: Dart :| First(c, d) && RouteOf(c, d, 4 * c.g.Size() + 4, cycle);
    hide RouteOf, ClosedWalk;
    RouteCloses(c, d, 4 * c.g.Size() + 4, cycle);
  }

  lemma StepOfRoute(c: Drawing, d: Dart, cycle: seq<int>, k: nat)
    requires c.Valid() && IsDart(c, d) && Follows(c, d, cycle) && 0 < k < |cycle|
    ensures c.g.Lane(cycle[k - 1], cycle[k])
  {
    assert k > 1 ==> Walked(c, d, k - 1).0 == Walked(c, d, k - 2).1;
  }
}
