/**
 The reservation tables and the poll queue together: who may wait, who is certain to own its
 target, and why an outdated wait-for edge can never take part in a deadlock verdict.
 */
module Traffic {
  import opened Names
  import opened Reservation
  import opened Fleet

  /** The edge of `x` still tells the truth: its successor owns the node `x` last queued for. */
  predicate Genuine(l: Ledger, x: Name)
    requires x in l.waitFor
  {
    x in l.asked && Owns(l, l.waitFor[x], l.asked[x])
  }

  predicate Distinct(q: seq<Task>) {
    forall i, j | 0 <= i < j < |q| :: q[i].robot != q[j].robot
  }

  ghost predicate Waiter(q: seq<Task>, l: Ledger, x: Name)
    requires x in l.waitFor
  {
    x in l.asked && l.waitFor[x] != x && HasTask(q, x)
  }

  /** Only robots with a task wait, and never for themselves. */
  ghost predicate WaitersHaveTasks(q: seq<Task>, l: Ledger) {
    forall x {:trigger Waiter(q, l, x)} | x in l.waitFor :: Waiter(q, l, x)
  }

  predicate MayWait(t: Task) {
    !t.moving && 0 < t.idx < |t.path| && t.Here() != t.Target()
  }

  /** A waiting task stands still and is after another node than the one it is at. */
  ghost predicate WaitersStand(q: seq<Task>, l: Ledger) {
    forall i | 0 <= i < |q| && q[i].robot in l.waitFor :: MayWait(q[i])
  }

  predicate OwnsTarget(l: Ledger, t: Task) {
    t.moving ==> t.idx < |t.path| && Owns(l, t.robot, t.path[t.idx])
  }

  /** Every moving task's robot owns the node it moves to. */
  ghost predicate MoversOwn(q: seq<Task>, l: Ledger) {
    forall i | 0 <= i < |q| :: OwnsTarget(l, q[i])
  }

  /** All of `x`'s turns come before `y`'s next turn. */
  predicate Precedes(q: seq<Task>, x: Name, y: Name) {
    forall i, j | 0 <= i < |q| && 0 <= j < |q| && q[i].robot == x && q[j].robot == y :: i < j
  }

  ghost predicate EndsIfStale(q: seq<Task>, l: Ledger, x: Name)
    requires x in l.waitFor
  {
    !Genuine(l, x) ==> l.waitFor[x] !in l.waitFor && Precedes(q, x, l.waitFor[x])
  }

  /** An outdated edge ends at a robot that waits for nobody and is polled only after the edge is refreshed. */
  ghost predicate StaleEdgesEnd(q: seq<Task>, l: Ledger) {
    forall x {:trigger EndsIfStale(q, l, x)} | x in l.waitFor :: EndsIfStale(q, l, x)
  }

  ghost predicate Orderly(q: seq<Task>, l: Ledger) {
    Distinct(q) && WaitersHaveTasks(q, l) && WaitersStand(q, l) && MoversOwn(q, l) && StaleEdgesEnd(q, l)
  }

  /** `m` differs from `l` only in that `r` gave up nodes and waits for nobody. */
  ghost predicate Vacates(l: Ledger, m: Ledger, r: Name) {
    && (forall n | n in l.owner :: l.owner[n] == r || (n in m.owner && m.owner[n] == l.owner[n]))
    && (forall n | n in m.owner :: n in l.owner && m.owner[n] == l.owner[n])
    && m.waitFor == l.waitFor - {r} && m.asked == l.asked
  }

  // ---------------------------------------------------------------- removing a task

  function Removed(q: seq<Task>, i: nat): seq<Task>
    requires i < |q|
  {
    q[..i] + q[i + 1..]
  }

  lemma RemovedPrecedes(q: seq<Task>, k: nat, x: Name, y: Name)
    requires k < |q| && Precedes(q, x, y)
    ensures Precedes(Removed(q, k), x, y)
  {
    var p := Removed(q, k);
    forall i, j | 0 <= i < |p| && 0 <= j < |p| && p[i].robot == x && p[j].robot == y ensures i < j {
      assert p[i] == q[if i < k then i else i + 1] && p[j] == q[if j < k then j else j + 1];
    }
  }

  lemma RemovedTasks(q: seq<Task>, k: nat, x: Name)
    requires k < |q| && Distinct(q)
    ensures HasTask(Removed(q, k), x) <==> HasTask(q, x) && x != q[k].robot
  {
    var p := Removed(q, k);
    if HasTask(q, x) && x != q[k].robot {
      var j :| 0 <= j < |q| && q[j].robot == x;
      assert p[if j < k then j else j - 1] == q[j];
    }
  }

  lemma RemoveKeeps(q: seq<Task>, i: nat, l: Ledger, m: Ledger)
    requires Orderly(q, l) && i < |q| && Vacates(l, m, q[i].robot)
    ensures Orderly(Removed(q, i), m)
    ensures !HasTask(Removed(q, i), q[i].robot)
  {
    var r, p := q[i].robot, Removed(q, i);
    RemovedTasks(q, i, r);
    forall x | x in m.waitFor ensures Waiter(p, m, x) && EndsIfStale(p, m, x) {
      assert Waiter(q, l, x) && EndsIfStale(q, l, x);
      RemovedTasks(q, i, x);
      if Precedes(q, x, l.waitFor[x]) {
        RemovedPrecedes(q, i, x, l.waitFor[x]);
      }
      if l.waitFor[x] == r {
        Absent(p, r, x);
      }
    }
  }

  lemma Absent(q: seq<Task>, y: Name, x: Name)
    requires !HasTask(q, y)
    ensures Precedes(q, x, y)
  {}

  // ---------------------------------------------------------------- a robot without a task

  lemma VacateKeeps(q: seq<Task>, l: Ledger, m: Ledger, r: Name)
    requires Orderly(q, l) && !HasTask(q, r) && Vacates(l, m, r)
    ensures Orderly(q, m)
  {
    assert r in l.waitFor ==> Waiter(q, l, r);
    forall x | x in m.waitFor ensures Waiter(q, m, x) && EndsIfStale(q, m, x) {
      assert Waiter(q, l, x) && EndsIfStale(q, l, x);
      if l.waitFor[x] == r {
        Absent(q, r, x);
      }
    }
  }

  /** Claiming a free node for a robot that waits for nobody. */
  lemma ClaimKeeps(q: seq<Task>, l: Ledger, r: Name, n: int, p: int)
    requires Orderly(q, l) && !HasTask(q, r)
    ensures Orderly(q, Requested(l, r, n, n, p)) && r !in Requested(l, r, n, n, p).waitFor
  {
    var m := Requested(l, r, n, n, p);
    assert r in l.waitFor ==> Waiter(q, l, r);
    assert m.waitFor == l.waitFor;
    forall x | x in m.waitFor ensures Waiter(q, m, x) && EndsIfStale(q, m, x) {
      assert Waiter(q, l, x) && EndsIfStale(q, l, x);
    }
  }

  lemma AppendKeeps(q: seq<Task>, l: Ledger, t: Task)
    requires Orderly(q, l) && !HasTask(q, t.robot) && !t.moving
    ensures Orderly(q + [t], l)
  {
    var p := q + [t];
    assert t.robot in l.waitFor ==> Waiter(q, l, t.robot);
    forall x | x in l.waitFor ensures Waiter(p, l, x) && EndsIfStale(p, l, x) {
      assert Waiter(q, l, x) && EndsIfStale(q, l, x);
      var j :| 0 <= j < |q| && q[j].robot == x;
      assert p[j].robot == x;
    }
  }

  // ---------------------------------------------------------------- the turn of the head task

  function Rotated(q: seq<Task>, t: Task): seq<Task>
    requires |q| > 0
  {
    q[1..] + [t]
  }

  lemma RotatedTasks(q: seq<Task>, t: Task, x: Name)
    requires |q| > 0 && t.robot == q[0].robot
    ensures HasTask(Rotated(q, t), x) <==> HasTask(q, x)
  {
    var p := Rotated(q, t);
    if HasTask(q, x) {
      var j :| 0 <= j < |q| && q[j].robot == x;
      assert p[if j == 0 then |p| - 1 else j - 1].robot == x;
    }
    if HasTask(p, x) {
      var j :| 0 <= j < |p| && p[j].robot == x;
      assert q[if j == |p| - 1 then 0 else j + 1].robot == x;
    }
  }

  /** Whoever was ahead stays ahead, and everyone is ahead of the robot that just had its turn. */
  lemma RotatedPrecedes(q: seq<Task>, t: Task, x: Name, y: Name)
    requires |q| > 0 && t.robot == q[0].robot && Distinct(q) && x != t.robot
    requires Precedes(q, x, y) || y == t.robot
    ensures Precedes(Rotated(q, t), x, y)
  {
    var p := Rotated(q, t);
    forall i, j | 0 <= i < |p| && 0 <= j < |p| && p[i].robot == x && p[j].robot == y ensures i < j {
      assert i < |p| - 1 && p[i] == q[i + 1];
      assert j < |p| - 1 ==> p[j] == q[j + 1];
    }
  }

  /** When a robot has its turn, every edge that ends at it is genuine. */
  lemma HeadEdgesGenuine(q: seq<Task>, l: Ledger, x: Name)
    requires Orderly(q, l) && |q| > 0 && x in l.waitFor && l.waitFor[x] == q[0].robot
    ensures Genuine(l, x)
  {
    assert Waiter(q, l, x) && EndsIfStale(q, l, x);
    var i :| 0 <= i < |q| && q[i].robot == x;
    assert q[0].robot == l.waitFor[x];
  }

  lemma RotateKeeps(q: seq<Task>, l: Ledger, t: Task)
    requires Orderly(q, l) && |q| > 0 && t.robot == q[0].robot && OwnsTarget(l, t)
    requires t.robot !in l.waitFor
    ensures Orderly(Rotated(q, t), l)
  {
    var p := Rotated(q, t);
    forall x | x in l.waitFor ensures Waiter(p, l, x) && EndsIfStale(p, l, x) {
      assert Waiter(q, l, x) && EndsIfStale(q, l, x);
      RotatedTasks(q, t, x);
      if !Genuine(l, x) {
        RotatedPrecedes(q, t, x, l.waitFor[x]);
      }
    }
  }

  /** What a request by the head robot may do to the tables. */
  ghost predicate TurnedBy(l: Ledger, m: Ledger, r: Name) {
    && (forall n | n in l.owner :: l.owner[n] == r || (n in m.owner && m.owner[n] == l.owner[n]))
    && (forall n | n in m.owner :: m.owner[n] == r || (n in l.owner && m.owner[n] == l.owner[n]))
    && m.waitFor - {r} == l.waitFor - {r} && m.asked - {r} == l.asked - {r}
    && (r in m.waitFor ==> m.waitFor[r] != r && Genuine(m, r) && m.owner == l.owner)
  }

  /** The head's turn keeps order, whatever answer it gets. */
  lemma TurnKeeps(q: seq<Task>, l: Ledger, m: Ledger, t: Task)
    requires Orderly(q, l) && |q| > 0 && t.robot == q[0].robot && TurnedBy(l, m, t.robot)
    requires OwnsTarget(m, t) && (t.robot in m.waitFor ==> MayWait(t))
    ensures Orderly(Rotated(q, t), m)
  {
    var p, r := Rotated(q, t), t.robot;
    forall x | x in m.waitFor ensures Waiter(p, m, x) && EndsIfStale(p, m, x) {
      if x != r {
        assert x in l.waitFor - {r} && m.waitFor[x] == (m.waitFor - {r})[x] == l.waitFor[x];
        assert Waiter(q, l, x) && EndsIfStale(q, l, x);
        assert x in m.asked - {r} && m.asked[x] == l.asked[x];
        EdgeAfterTurn(q, l, m, t, x);
      }
      RotatedTasks(q, t, x);
    }
    forall i | 0 <= i < |p| ensures OwnsTarget(m, p[i]) {
      assert i < |p| - 1 ==> p[i] == q[i + 1];
    }
    forall i | 0 <= i < |p| && p[i].robot in m.waitFor ensures MayWait(p[i]) {
      assert i < |p| - 1 ==> p[i] == q[i + 1] && p[i].robot in l.waitFor - {r};
    }
  }

  lemma EdgeAfterTurn(q: seq<Task>, l: Ledger, m: Ledger, t: Task, x: Name)
    requires Orderly(q, l) && |q| > 0 && t.robot == q[0].robot && TurnedBy(l, m, t.robot)
    requires x != t.robot && x in l.waitFor && x in m.waitFor && m.waitFor[x] == l.waitFor[x]
    requires x in l.asked && x in m.asked && m.asked[x] == l.asked[x]
    ensures EndsIfStale(Rotated(q, t), m, x)
  {
    var r, y := t.robot, l.waitFor[x];
    assert EndsIfStale(q, l, x);
    if y == r {
      HeadEdgesGenuine(q, l, x);
      RotatedPrecedes(q, t, x, r);
    } else if !Genuine(m, x) {
      assert y !in l.waitFor;
      assert y in m.waitFor ==> y in m.waitFor - {r};
      RotatedPrecedes(q, t, x, y);
    }
  }

  /** The ledger after a request and the departure that may follow it is such a turn. */
  lemma AskingTurns(s: System, t: Task)
    requires 0 < t.idx < |t.path| && (t.robot in s.ledger.waitFor ==> t.Here() != t.Target())
    requires t.robot in s.ledger.waitFor ==> s.ledger.waitFor[t.robot] != t.robot
    ensures TurnedBy(s.ledger, AskedLedger(s, t), t.robot)
    ensures Answered(s, t) == Grant ==> Owns(AskedLedger(s, t), t.robot, t.Target())
    ensures t.robot in AskedLedger(s, t).waitFor <==> Answered(s, t) == Wait && t.Here() != t.Target()
  {
    hide Victim, PriorityOf;
    var l, r, p := s.ledger, t.robot, PriorityOf(s, t);
    var m := Requested(l, r, t.Here(), t.Target(), p);
    if Answered(s, t) == Grant {
      GrantTurns(l, m, r, t.Target(), p);
      if t.Here() != t.Target() {
        ReleaseTurns(l, m, r, t.Here());
      }
    } else if t.Here() != t.Target() {
      HoldTurns(l, m, r, t.Target());
    }
  }

  lemma GrantTurns(l: Ledger, m: Ledger, r: Name, to: int, p: int)
    requires Free(l, r, to) && m == Ledger(l.owner[to := r], l.waitFor - {r}, l.prio[r := p], l.asked)
    ensures TurnedBy(l, m, r)
  {
    assert m.waitFor - {r} == l.waitFor - {r};
  }

  lemma ReleaseTurns(l: Ledger, m: Ledger, r: Name, node: int)
    requires TurnedBy(l, m, r) && r !in m.waitFor
    ensures TurnedBy(l, Released(m, r, node), r)
  {
    assert m.waitFor - {r} == m.waitFor;
  }

  lemma HoldTurns(l: Ledger, m: Ledger, r: Name, to: int)
    requires m.owner == l.owner && !Free(l, r, to) && m.asked == l.asked[r := to]
    requires m.waitFor == l.waitFor - {r} || m.waitFor == l.waitFor[r := l.owner[to]]
    ensures TurnedBy(l, m, r)
  {
    assert m.waitFor - {r} == l.waitFor - {r};
    assert m.asked - {r} == l.asked - {r};
  }
}
