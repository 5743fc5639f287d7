/**
 A ring of robots, each holding a node and asking for the next one's: in whatever order they and the
 robots queueing behind them are polled, exactly one member is ever told to yield, and it is the lowest.
 */
module Ring {
  import opened Names
  import opened Reservation

  /** Robot `robots[i]` stands on `nodes[i]` with a fixed priority and wants the node of its successor. */
  datatype Circle = Circle(robots: seq<Name>, nodes: seq<int>, prio: seq<int>) {

    ghost predicate Valid() {
      && |robots| == |nodes| == |prio| >= 2
      && (forall i, j | 0 <= i < j < |robots| :: robots[i] != robots[j])
    }

    function Next(i: nat): (n: nat)
      requires i < |robots|
      ensures n < |robots|
    {
      if i + 1 == |robots| then 0 else i + 1
    }

    /** The member `n` places further on. */
    function At(i: nat, n: nat): (m: nat)
      requires i < |robots|
      ensures m < |robots|
    {
      if n == 0 then i else Next(At(i, n - 1))
    }

    /** Member `v` gives way to every other: lower priority, or equal priority and the larger name. */
    predicate Lowest(v: nat)
      requires |robots| == |prio|
    {
      v < |robots| && forall j | 0 <= j < |robots| && j != v ::
        prio[v] < prio[j] || (prio[v] == prio[j] && Before(robots[j], robots[v]))
    }
  }

  /** A member asks for its successor's node, or a robot outside the ring asks for some member's node. */
  datatype Request = Member(i: nat) | Outsider(name: Name, from: int, j: nat, priority: int)

  ghost predicate Allowed(c: Circle, q: Request) {
    match q
    case Member(i) => i < |c.robots|
    case Outsider(name, from, j, _) => j < |c.robots| && name !in c.robots
  }

  ghost function Answer(c: Circle, l: Ledger, q: Request): Decision
    requires c.Valid() && Allowed(c, q)
  {
    match q
    case Member(i) => Verdict(l, c.robots[i], c.nodes[i], c.nodes[c.Next(i)], c.prio[i])
    case Outsider(name, from, j, p) => Verdict(l, name, from, c.nodes[j], p)
  }

  ghost function Step(c: Circle, l: Ledger, q: Request): Ledger
    requires c.Valid() && Allowed(c, q)
  {
    match q
    case Member(i) => Requested(l, c.robots[i], c.nodes[i], c.nodes[c.Next(i)], c.prio[i])
    case Outsider(name, from, j, p) => Requested(l, name, from, c.nodes[j], p)
  }

  ghost function After(c: Circle, l: Ledger, qs: seq<Request>): Ledger
    requires c.Valid() && forall q | q in qs :: Allowed(c, q)
    decreases |qs|
  {
    if qs == [] then l else Step(c, After(c, l, qs[..|qs| - 1]), qs[|qs| - 1])
  }

  predicate InPlace(c: Circle, l: Ledger)
    requires |c.robots| == |c.nodes|
  {
    forall i | 0 <= i < |c.robots| :: Owns(l, c.robots[i], c.nodes[i])
  }

  /** If member `i` waits, it waits for its successor, with its own priority on record. */
  predicate OnRing(c: Circle, w: map<Name, Name>, prio: map<Name, int>, i: nat)
    requires |c.robots| == |c.prio| && i < |c.robots|
  {
    c.robots[i] in w ==> w[c.robots[i]] == c.robots[c.Next(i)] && PrioOf(prio, c.robots[i]) == c.prio[i]
  }

  ghost predicate Intact(c: Circle, l: Ledger)
    requires c.Valid()
  {
    && InPlace(c, l)
    && forall i {:trigger OnRing(c, l.waitFor, l.prio, i)} | 0 <= i < |c.robots| :: OnRing(c, l.waitFor, l.prio, i)
  }

  // ---------------------------------------------------------------- walking around the ring

  lemma {:induction false} AtIs(c: Circle, i: nat, n: nat)
    requires c.Valid() && i < |c.robots| && n <= |c.robots|
    ensures c.At(i, n) == if i + n < |c.robots| then i + n else i + n - |c.robots|
  {
    if n > 0 {
      AtIs(c, i, n - 1);
    }
  }

  /** From a member the walk stays on the ring as far as it goes. */
  lemma {:induction false} WalkStays(c: Circle, w: map<Name, Name>, prio: map<Name, int>, i: nat, n: nat)
    requires c.Valid() && i < |c.robots|
    requires forall j {:trigger OnRing(c, w, prio, j)} | 0 <= j < |c.robots| :: OnRing(c, w, prio, j)
    ensures Follow(w, c.robots[i], n).Some? ==> Follow(w, c.robots[i], n).value == c.robots[c.At(i, n)]
  {
    if n > 0 {
      WalkStays(c, w, prio, i, n - 1);
      assert OnRing(c, w, prio, c.At(i, n - 1));
    }
  }

  /** With every member waiting the walk goes round. */
  lemma {:induction false} WalkGoesRound(c: Circle, w: map<Name, Name>, prio: map<Name, int>, i: nat, n: nat)
    requires c.Valid() && i < |c.robots|
    requires forall j {:trigger OnRing(c, w, prio, j)} | 0 <= j < |c.robots| :: OnRing(c, w, prio, j)
    requires forall j | 0 <= j < |c.robots| :: c.robots[j] in w
    ensures Follow(w, c.robots[i], n) == Some(c.robots[c.At(i, n)])
  {
    if n > 0 {
      WalkGoesRound(c, w, prio, i, n - 1);
      assert OnRing(c, w, prio, c.At(i, n - 1));
    }
  }

  /** On a cycle through member `i` every member is met. */
  lemma {:induction false} CycleMeetsAll(c: Circle, w: map<Name, Name>, prio: map<Name, int>, i: nat, v: nat, m: nat)
    requires c.Valid() && i < |c.robots| && v < |c.robots|
    requires forall j {:trigger OnRing(c, w, prio, j)} | 0 <= j < |c.robots| :: OnRing(c, w, prio, j)
    requires m > 0 && Follow(w, c.robots[i], m) == Some(c.robots[i])
    ensures exists n: nat :: Follow(w, c.robots[i], n) == Some(c.robots[v]) && c.robots[v] in w
  {
    var n := if v >= i then v - i else v + |c.robots| - i;
    AtIs(c, i, n);
    CycleGoesOn(w, c.robots[i], m, n);
    WalkStays(c, w, prio, i, n);
    assert Follow(w, c.robots[i], n) == Some(c.robots[v]);
  }

  // ---------------------------------------------------------------- single requests

  ghost function Waiting(c: Circle, l: Ledger, i: nat): map<Name, Name>
    requires c.Valid() && i < |c.robots|
  {
    l.waitFor[c.robots[i] := c.robots[c.Next(i)]]
  }

  /** A member's request keeps everyone's edge on the ring. */
  lemma StillOnRing(c: Circle, l: Ledger, i: nat, w: map<Name, Name>, prio: map<Name, int>)
    requires c.Valid() && Intact(c, l) && i < |c.robots|
    requires w == Waiting(c, l, i) && prio == l.prio[c.robots[i] := c.prio[i]]
    ensures forall j {:trigger OnRing(c, w, prio, j)} | 0 <= j < |c.robots| :: OnRing(c, w, prio, j)
  {
    forall j | 0 <= j < |c.robots| ensures OnRing(c, w, prio, j) {
      assert OnRing(c, l.waitFor, l.prio, j);
      assert i < j ==> c.robots[i] != c.robots[j];
      assert j < i ==> c.robots[j] != c.robots[i];
    }
  }

  /** A member is never granted; it is told to yield only if it is the lowest. */
  lemma MemberAnswer(c: Circle, l: Ledger, i: nat, v: nat)
    requires c.Valid() && Intact(c, l) && i < |c.robots| && c.Lowest(v)
    ensures Answer(c, l, Member(i)) != Grant
    ensures i != v ==> Answer(c, l, Member(i)) == Wait
  {
    var r, n := c.robots[i], c.Next(i);
    var w, prio := Waiting(c, l, i), l.prio[r := c.prio[i]];
    assert Owns(l, c.robots[n], c.nodes[n]) && Owns(l, r, c.nodes[i]);
    assert n < i ==> c.robots[n] != r;
    assert i < n ==> r != c.robots[n];
    if i != v && Victim(w, prio, r) {
      StillOnRing(c, l, i, w, prio);
      var m: nat :| m > 0 && Follow(w, r, m) == Some(r);
      CycleMeetsAll(c, w, prio, i, v, m);
      assert OnRing(c, w, prio, v);
      assert i < v ==> r != c.robots[v];
      assert v < i ==> c.robots[v] != r;
      var k: nat :| Follow(w, r, k) == Some(c.robots[v]);
      assert Yields(prio, r, c.robots[v]);
      BeforeTotal(r, c.robots[v]);
    }
  }

  /** Once all others wait, the lowest member is told to yield at its next request. */
  lemma LowestYields(c: Circle, l: Ledger, v: nat)
    requires c.Valid() && Intact(c, l) && c.Lowest(v)
    requires forall j | 0 <= j < |c.robots| && j != v :: c.robots[j] in l.waitFor
    ensures Answer(c, l, Member(v)) == Deadlock
  {
    var r := c.robots[v];
    var w, prio := Waiting(c, l, v), l.prio[r := c.prio[v]];
    StillOnRing(c, l, v, w, prio);
    WalkGoesRound(c, w, prio, v, |c.robots|);
    AtIs(c, v, |c.robots|);
    forall k: nat | Follow(w, r, k).Some? && Follow(w, r, k).value != r ensures Yields(prio, r, Follow(w, r, k).value) {
      WalkStays(c, w, prio, v, k);
      assert OnRing(c, w, prio, c.At(v, k));
    }
    assert Victim(w, prio, r);
    MemberAnswer(c, l, v, v);
    NextOwned(c, l, v);
  }

  lemma NextOwned(c: Circle, l: Ledger, i: nat)
    requires c.Valid() && Intact(c, l) && i < |c.robots|
    ensures var to := c.nodes[c.Next(i)];
            to in l.owner && l.owner[to] == c.robots[c.Next(i)] != c.robots[i] && c.nodes[i] != to
  {
    var n := c.Next(i);
    assert Owns(l, c.robots[n], c.nodes[n]) && Owns(l, c.robots[i], c.nodes[i]);
    assert n < i ==> c.robots[n] != c.robots[i];
    assert i < n ==> c.robots[i] != c.robots[n];
  }

  /** A robot queueing into the ring from outside only waits. */
  lemma OutsiderWaits(c: Circle, l: Ledger, q: Request)
    requires c.Valid() && Intact(c, l) && q.Outsider? && Allowed(c, q)
    ensures Answer(c, l, q) == Wait
  {
    var w, b := l.waitFor[q.name := c.robots[q.j]], c.robots[q.j];
    assert Owns(l, b, c.nodes[q.j]);
    forall n: nat | n > 0 ensures Follow(w, q.name, n) != Some(q.name) {
      assert Follow(w, q.name, 1) == Some(b);
      FollowAdds(w, q.name, 1, n - 1);
      forall j | 0 <= j < |c.robots| ensures OnRing(c, w, l.prio, j) {
        assert OnRing(c, l.waitFor, l.prio, j) && c.robots[j] != q.name;
      }
      WalkStays(c, w, l.prio, q.j, n - 1);
    }
  }

  /** What one request leaves: the ring in place, and everyone but the lowest who has asked still waiting. */
  lemma StepIntact(c: Circle, l: Ledger, q: Request, v: nat)
    requires c.Valid() && Intact(c, l) && Allowed(c, q) && c.Lowest(v)
    ensures Intact(c, Step(c, l, q))
    ensures forall j | 0 <= j < |c.robots| && j != v && (c.robots[j] in l.waitFor || q == Member(j)) ::
              c.robots[j] in Step(c, l, q).waitFor
  {
    var m := Step(c, l, q);
    match q
    case Member(i) =>
      MemberAnswer(c, l, i, v);
      NextOwned(c, l, i);
      var w := Waiting(c, l, i);
      StillOnRing(c, l, i, w, m.prio);
      forall j | 0 <= j < |c.robots| ensures OnRing(c, m.waitFor, m.prio, j) {
        assert OnRing(c, w, m.prio, j);
      }
    case Outsider(name, from, j0, p) =>
      OutsiderWaits(c, l, q);
      forall j | 0 <= j < |c.robots| ensures OnRing(c, m.waitFor, m.prio, j) {
        assert OnRing(c, l.waitFor, l.prio, j) && c.robots[j] != name;
      }
  }

  // ---------------------------------------------------------------- any polling order

  lemma {:induction false} AfterIntact(c: Circle, l: Ledger, qs: seq<Request>, v: nat)
    requires c.Valid() && InPlace(c, l) && l.waitFor == map[] && c.Lowest(v)
    requires forall q | q in qs :: Allowed(c, q)
    ensures Intact(c, After(c, l, qs))
    ensures forall j | 0 <= j < |c.robots| && j != v && Member(j) in qs :: c.robots[j] in After(c, l, qs).waitFor
    decreases |qs|
  {
    if qs != [] {
      AfterIntact(c, l, qs[..|qs| - 1], v);
      StepIntact(c, After(c, l, qs[..|qs| - 1]), qs[|qs| - 1], v);
    }
  }

  /**
   For every polling order, after any requests `qs` and for the next one `q`: no member is granted, outsiders
   wait, only the lowest member can be told to yield, and it is as soon as every other member has asked
   before; so two rounds are always enough.
   */
  lemma RingResolves(c: Circle, l: Ledger, qs: seq<Request>, q: Request, v: nat)
    requires c.Valid() && InPlace(c, l) && l.waitFor == map[] && c.Lowest(v)
    requires Allowed(c, q) && forall x | x in qs :: Allowed(c, x)
    ensures Answer(c, After(c, l, qs), q) != Grant
    ensures q.Outsider? ==> Answer(c, After(c, l, qs), q) == Wait
    ensures Answer(c, After(c, l, qs), q) == Deadlock ==> q == Member(v)
    ensures q == Member(v) && (forall j | 0 <= j < |c.robots| && j != v :: Member(j) in qs) ==>
              Answer(c, After(c, l, qs), q) == Deadlock
  {
    AfterIntact(c, l, qs, v);
    match q
    case Member(i) =>
      MemberAnswer(c, After(c, l, qs), i, v);
      if i == v && forall j | 0 <= j < |c.robots| && j != v :: Member(j) in qs {
        LowestYields(c, After(c, l, qs), v);
      }
    case Outsider(_, _, _, _) =>
      OutsiderWaits(c, After(c, l, qs), q);
  }

  /** Two rounds, in any order and with any outsiders in between: in the second the lowest member is told to yield. */
  lemma TwoRoundsAreEnough(c: Circle, l: Ledger, first: seq<Request>, second: seq<Request>, v: nat) returns (n: nat)
    requires c.Valid() && InPlace(c, l) && l.waitFor == map[] && c.Lowest(v)
    requires forall q | q in first + second :: Allowed(c, q)
    requires forall j | 0 <= j < |c.robots| :: Member(j) in first && Member(j) in second
    ensures n < |second| && second[n] == Member(v)
    ensures Answer(c, After(c, l, first + second[..n]), second[n]) == Deadlock
  {
    assert v < |c.robots| && Member(v) in second;
    n :| 0 <= n < |second| && second[n] == Member(v);
    RingResolves(c, l, first + second[..n], second[n], v);
  }

  /** There is always a lowest member. */
  lemma {:induction false} LowestExists(c: Circle, n: nat) returns (v: nat)
    requires c.Valid() && 0 < n <= |c.robots|
    ensures v < n && forall j | 0 <= j < n && j != v ::
              c.prio[v] < c.prio[j] || (c.prio[v] == c.prio[j] && Before(c.robots[j], c.robots[v]))
    ensures n == |c.robots| ==> c.Lowest(v)
  {
    v := 0;
    if n > 1 {
      v := LowestExists(c, n - 1);
      var r, x := c.robots[v], c.robots[n - 1];
      BeforeTotal(r, x);
      if c.prio[n - 1] < c.prio[v] || (c.prio[n - 1] == c.prio[v] && Before(r, x)) {
        forall j | 0 <= j < n - 1 && j != v && c.prio[n - 1] == c.prio[j] ensures Before(c.robots[j], x) {
          BeforeTransitive(c.robots[j], r, x);
        }
        v := n - 1;
      }
    }
  }
}
