/** Node reservations and the wait-for graph: the traffic plugin ReservationDeadlock. */
module Reservation {
  import opened Names

  datatype Option<+T> = None | Some(value: T) {
    function GetOr(other: T): T { if Some? then value else other }
  }

  /** The answer to a request: reserved, wait, or "you are the one that yields". */
  datatype Decision = Grant | Wait | Deadlock

  /** The three tables of the plugin, and the node each robot last queued for (history only). */
  datatype Ledger = Ledger(owner: map<int, Name>, waitFor: map<Name, Name>, prio: map<Name, int>,
                           asked: map<Name, int>)

  const EMPTY := Ledger(map[], map[], map[], map[])

  // ---------------------------------------------------------------- cycles of the wait-for graph

  /** Who is reached from `r` after `k` wait-for edges. */
  function Follow(w: map<Name, Name>, r: Name, k: nat): Option<Name> {
    if k == 0 then Some(r)
    else
      var x := Follow(w, r, k - 1);
      if x.Some? && x.value in w then Some(w[x.value]) else None
  }

  ghost predicate OnCycle(w: map<Name, Name>, r: Name) {
    exists k: nat :: k > 0 && Follow(w, r, k) == Some(r)
  }

  /** Everyone but `r` on the walk from `r` stays, `r` gives way. */
  ghost predicate YieldsToAll(w: map<Name, Name>, prio: map<Name, int>, r: Name) {
    forall k: nat :: Follow(w, r, k).Some? && Follow(w, r, k).value != r ==> Yields(prio, r, Follow(w, r, k).value)
  }

  /** Missing priorities read as 0. */
  function PrioOf(prio: map<Name, int>, r: Name): int {
    if r in prio then prio[r] else 0
  }

  /** `a` gives way to `b`: lower priority, or equal priority and the larger name. */
  predicate Yields(prio: map<Name, int>, a: Name, b: Name) {
    PrioOf(prio, a) < PrioOf(prio, b) || (PrioOf(prio, a) == PrioOf(prio, b) && Before(b, a))
  }

  /** The robot that must yield: it is on a cycle and gives way to every other member. */
  ghost predicate Victim(w: map<Name, Name>, prio: map<Name, int>, r: Name) {
    OnCycle(w, r) && YieldsToAll(w, prio, r)
  }

  /** `out` lists, without repeats, the first robots on the walk from `start`. */
  ghost predicate Chain(w: map<Name, Name>, start: Name, out: seq<Name>) {
    && |out| > 0
    && (forall i | 0 <= i < |out| :: Follow(w, start, i) == Some(out[i]))
    && (forall i, j | 0 <= i < j < |out| :: out[i] != out[j])
  }

  lemma {:induction false} FollowAdds(w: map<Name, Name>, r: Name, a: nat, b: nat)
    requires Follow(w, r, a).Some?
    ensures Follow(w, r, a + b) == Follow(w, Follow(w, r, a).value, b)
    decreases b
  {
    if b > 0 {
      FollowAdds(w, r, a, b - 1);
      assert a + b - 1 == a + (b - 1);
    }
  }

  /** Once the walk has met one of its own vertices again it stays among those it has seen. */
  lemma {:induction false} FollowRepeats(w: map<Name, Name>, out: seq<Name>, a: nat, k: nat)
    requires |out| > a
    requires forall i | 0 <= i < |out| :: Follow(w, out[0], i) == Some(out[i])
    requires Follow(w, out[0], |out|) == Some(out[a])
    requires k >= a
    ensures exists i :: a <= i < |out| && Follow(w, out[0], k) == Some(out[i])
    decreases k
  {
    if k >= |out| {
      FollowRepeats(w, out, a, k - 1);
      var i :| a <= i < |out| && Follow(w, out[0], k - 1) == Some(out[i]);
      assert Follow(w, out[0], i + 1) == Follow(w, out[0], k);
      if i + 1 < |out| {
        assert Follow(w, out[0], k) == Some(out[i + 1]);
      } else {
        assert Follow(w, out[0], k) == Some(out[a]);
      }
    } else {
      assert Follow(w, out[0], k) == Some(out[k]);
    }
  }

  lemma {:induction false} FollowEnds(w: map<Name, Name>, r: Name, n: nat, k: nat)
    requires Follow(w, r, n).None? && k >= n
    ensures Follow(w, r, k).None?
    decreases k
  {
    if k > n {
      FollowEnds(w, r, n, k - 1);
    }
  }

  /** A cycle never runs out: every robot on it waits for another. */
  lemma {:induction false} CycleGoesOn(w: map<Name, Name>, r: Name, n: nat, k: nat)
    requires n > 0 && Follow(w, r, n) == Some(r)
    ensures Follow(w, r, k).Some? && Follow(w, r, k).value in w
    decreases k
  {
    if k >= n {
      FollowAdds(w, r, n, k - n);
      CycleGoesOn(w, r, n, k - n);
    } else if Follow(w, r, k + 1).None? {
      FollowEnds(w, r, k + 1, n);
    }
  }

  // ---------------------------------------------------------------- what the operations do to the tables

  predicate Free(l: Ledger, r: Name, node: int) {
    node in l.owner ==> l.owner[node] == r
  }

  predicate Owns(l: Ledger, r: Name, node: int) {
    node in l.owner && l.owner[node] == r
  }

  ghost function Verdict(l: Ledger, r: Name, from: int, to: int, p: int): Decision {
    if Free(l, r, to) then Grant
    else if from != to && Victim(l.waitFor[r := l.owner[to]], l.prio[r := p], r) then Deadlock
    else Wait
  }

  ghost function Requested(l: Ledger, r: Name, from: int, to: int, p: int): Ledger {
    var prio := l.prio[r := p];
    match Verdict(l, r, from, to, p)
    case Grant => Ledger(l.owner[to := r], l.waitFor - {r}, prio, l.asked)
    case Deadlock => Ledger(l.owner, l.waitFor - {r}, prio, l.asked[r := to])
    case Wait =>
      if from == to then l.(prio := prio)
      else Ledger(l.owner, l.waitFor[r := l.owner[to]], prio, l.asked[r := to])
  }

  ghost function Released(l: Ledger, r: Name, node: int): Ledger {
    l.(owner := if Owns(l, r, node) then l.owner - {node} else l.owner, waitFor := l.waitFor - {r})
  }

  method Pick<T>(s: set<T>) returns (x: T)
    requires s != {}
    ensures x in s
  {
    x :| x in s;
  }

  // ---------------------------------------------------------------- the plugin

  class ReservationDeadlock {
    var nodeOwner: map<int, Name>
    var waitFor: map<Name, Name>
    var prio: map<Name, int>
    ghost var asked: map<Name, int>

    ghost function State(): Ledger
      reads this
    {
      Ledger(nodeOwner, waitFor, prio, asked)
    }

    constructor ()
      ensures State() == EMPTY
    {
      nodeOwner, waitFor, prio, asked := map[], map[], map[], map[];
    }

    method RequestMove(robot: Name, from: int, to: int, priority: int) returns (decision: Decision)
      modifies this
      ensures decision == Verdict(old(State()), robot, from, to, priority)
      ensures State() == Requested(old(State()), robot, from, to, priority)
    {
      hide Victim, OnCycle, Yields;
      prio := prio[robot := priority];
      if from == to {
        if to !in nodeOwner || nodeOwner[to] == robot {
          nodeOwner := nodeOwner[to := robot];
          waitFor := waitFor - {robot};
          return Grant;
        }
        return Wait;
      }
      var blocker := OwnerOfNode(to, robot);
      if blocker == "" {
        nodeOwner := nodeOwner[to := robot];
        waitFor := waitFor - {robot};
        return Grant;
      }
      ghost var edges := waitFor;
      waitFor := waitFor[robot := blocker];
      asked := asked[robot := to];
      var found, cycle := FindCycle(robot);
      if found {
        var victim := LowestPriority(cycle);
        VictimOfCycle(waitFor, prio, cycle, victim);
        if victim == robot {
          waitFor := waitFor - {robot};
          assert waitFor == edges - {robot};
          return Deadlock;
        }
      } else {
        NoVictimOffCycle(waitFor, prio, robot);
      }
      return Wait;
    }

    method Release(robot: Name, node: int)
      modifies this
      ensures State() == Released(old(State()), robot, node)
    {
      if node in nodeOwner && nodeOwner[node] == robot {
        nodeOwner := nodeOwner - {node};
      }
      waitFor := waitFor - {robot};
    }

    method ReleaseNode(robot: Name, node: int)
      modifies this
      ensures State() == Released(old(State()), robot, node)
    {
      if node in nodeOwner && nodeOwner[node] == robot {
        nodeOwner := nodeOwner - {node};
      }
      waitFor := waitFor - {robot};
    }

    /** The owned nodes with their owners, each node once. */
    method Occupancy() returns (out: seq<(int, Name)>)
      ensures forall k | 0 <= k < |out| :: out[k].0 in nodeOwner && out[k].1 == nodeOwner[out[k].0]
      ensures forall n | n in nodeOwner :: exists k :: 0 <= k < |out| && out[k].0 == n
      ensures forall i, j | 0 <= i < j < |out| :: out[i].0 != out[j].0
    {
      out := [];
      var rest := nodeOwner.Keys;
      while rest != {}
        invariant rest <= nodeOwner.Keys
        invariant forall k | 0 <= k < |out| :: out[k].0 in nodeOwner && out[k].0 !in rest
        invariant forall k | 0 <= k < |out| :: out[k].1 == nodeOwner[out[k].0]
        invariant forall n | n in nodeOwner && n !in rest :: exists k :: 0 <= k < |out| && out[k].0 == n
        invariant forall i, j | 0 <= i < j < |out| :: out[i].0 != out[j].0
        decreases rest
      {
        var n := Pick(rest);
        out := out + [(n, nodeOwner[n])];
        rest := rest - {n};
        assert out[|out| - 1].0 == n;
        assert forall k | 0 <= k < |out| - 1 :: out[k] == out[..|out| - 1][k];
      }
    }

    /** The other owner of a node, or "" when the node is free or already one's own. */
    method OwnerOfNode(node: int, self: Name) returns (other: string)
      ensures other == "" <==> Free(State(), self, node)
      ensures other != "" ==> node in nodeOwner && nodeOwner[node] == other
    {
      other := if node in nodeOwner && nodeOwner[node] != self then nodeOwner[node] else "";
    }

    /** Exact: true iff the walk from `start` comes back to it, and then `out` is that cycle in wait order. */
    method FindCycle(start: Name) returns (found: bool, out: seq<Name>)
      ensures found <==> OnCycle(waitFor, start)
      ensures found ==> Follow(waitFor, start, |out|) == Some(start)
      ensures Chain(waitFor, start, out)
    {
      out := [];
      var cur := start;
      var seen: set<Name> := {};
      while true
        invariant Chain(waitFor, start, out + [cur])
        invariant seen <= waitFor.Values
        invariant forall x :: x in seen <==> x in (out + [cur])[1..]
        decreases waitFor.Values - seen
      {
        out := out + [cur];
        if cur !in waitFor {
          forall k: nat | k > 0 ensures Follow(waitFor, start, k) != Some(start) {
            NoReturnPastEnd(waitFor, out, k);
          }
          return false, out;
        }
        cur := waitFor[cur];
        assert Follow(waitFor, start, |out|) == Some(cur);
        if cur == start {
          return true, out;
        }
        if cur in seen {
          forall k: nat | k > 0 ensures Follow(waitFor, start, k) != Some(start) {
            NoReturnToStart(waitFor, out, cur, k);
          }
          return false, out;
        }
        assert (out + [cur])[1..] == out[1..] + [cur];
        seen := seen + {cur};
      }
    }

    /** The member that every other member outranks. */
    method LowestPriority(cycle: seq<Name>) returns (lowest: Name)
      requires |cycle| > 0
      ensures lowest in cycle
      ensures forall i | 0 <= i < |cycle| :: cycle[i] == lowest || Yields(prio, lowest, cycle[i])
    {
      lowest := cycle[0];
      for n := 0 to |cycle|
        invariant lowest in cycle
        invariant forall i | 0 <= i < n :: cycle[i] == lowest || Yields(prio, lowest, cycle[i])
      {
        var r := cycle[n];
        BeforeTotal(r, lowest);
        if PrioOf(prio, r) < PrioOf(prio, lowest) || (PrioOf(prio, r) == PrioOf(prio, lowest) && Before(lowest, r)) {
          forall i | 0 <= i < n && cycle[i] != r ensures Yields(prio, r, cycle[i]) {
            YieldsTransitive(prio, r, lowest, cycle[i]);
          }
          lowest := r;
        }
      }
    }
  }

  lemma {:induction false} YieldsTransitive(prio: map<Name, int>, a: Name, b: Name, c: Name)
    requires Yields(prio, a, b)
    requires b == c || Yields(prio, b, c)
    ensures Yields(prio, a, c)
  {
    if b != c && PrioOf(prio, a) == PrioOf(prio, b) == PrioOf(prio, c) {
      BeforeTransitive(c, b, a);
    }
  }

  /** First false exit: the chain ran into a robot that waits for nobody. */
  lemma {:induction false} NoReturnPastEnd(w: map<Name, Name>, out: seq<Name>, k: nat)
    requires |out| > 0 && Chain(w, out[0], out) && k > 0
    requires out[|out| - 1] !in w
    ensures Follow(w, out[0], k) != Some(out[0])
  {
    assert Follow(w, out[0], |out|) == None;
    if k >= |out| {
      FollowEnds(w, out[0], |out|, k);
    }
  }

  /** Second false exit: the chain ran into a cycle that does not contain the start. */
  lemma {:induction false} NoReturnToStart(w: map<Name, Name>, out: seq<Name>, again: Name, k: nat)
    requires |out| > 0 && Chain(w, out[0], out) && k > 0
    requires Follow(w, out[0], |out|) == Some(again) && again in out[1..]
    ensures Follow(w, out[0], k) != Some(out[0])
  {
    var a :| 1 <= a < |out| && out[a] == again;
    if k >= a {
      FollowRepeats(w, out, a, k);
    }
  }

  lemma NoVictimOffCycle(w: map<Name, Name>, prio: map<Name, int>, r: Name)
    requires !OnCycle(w, r)
    ensures !Victim(w, prio, r)
  {}

  /** The lowest-priority member of the cycle that was found is the one the wait-for graph makes yield. */
  lemma {:induction false} VictimOfCycle(w: map<Name, Name>, prio: map<Name, int>, cycle: seq<Name>, lowest: Name)
    requires |cycle| > 0
    requires forall i | 0 <= i < |cycle| :: Follow(w, cycle[0], i) == Some(cycle[i])
    requires Follow(w, cycle[0], |cycle|) == Some(cycle[0])
    requires lowest in cycle
    requires forall i | 0 <= i < |cycle| :: cycle[i] == lowest || Yields(prio, lowest, cycle[i])
    ensures lowest == cycle[0] <==> Victim(w, prio, cycle[0])
  {
    var r := cycle[0];
    forall k: nat ensures exists i :: 0 <= i < |cycle| && Follow(w, r, k) == Some(cycle[i]) {
      FollowRepeats(w, cycle, 0, k);
    }
    var n :| 0 <= n < |cycle| && cycle[n] == lowest;
    assert Follow(w, r, n) == Some(lowest);
    BeforeTotal(r, lowest);
  }
}
