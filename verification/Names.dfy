/** Robot names and the order in which std::map and std::string compare them. */
module Names {

  /** A robot name. The empty string is the "nobody" value of the program, so it is no name. */
  type Name = s: string | s != "" witness "r"

  /** Lexicographic order of std::string: the comparison behind `a < b`. */
  predicate Before(a: string, b: string) {
    if b == "" then false
    else if a == "" then true
    else a[0] < b[0] || (a[0] == b[0] && Before(a[1..], b[1..]))
  }

  lemma {:induction false} BeforeTotal(a: string, b: string)
    ensures Before(a, b) || Before(b, a) || a == b
    ensures !(Before(a, b) && Before(b, a))
    ensures !Before(a, a)
  {
    if a != "" && b != "" {
      BeforeTotal(a[1..], b[1..]);
      assert a[0] == b[0] && a[1..] == b[1..] ==> a == [a[0]] + a[1..] == b;
    }
    if a != "" {
      BeforeTotal(a[1..], a[1..]);
    }
  }

  lemma {:induction false} BeforeTransitive(a: string, b: string, c: string)
    requires Before(a, b) && Before(b, c)
    ensures Before(a, c)
  {
    if a != "" && a[0] == b[0] && b[0] == c[0] {
      BeforeTransitive(a[1..], b[1..], c[1..]);
    }
  }

  /** The names agree up to `k`, and there `a` ends or has the smaller character. */
  predicate PartAt(a: string, b: string, k: nat) {
    k <= |a| && k < |b| && a[..k] == b[..k] && (k == |a| || a[k] < b[k])
  }

  /** The order is the dictionary's: decided by the first character in which the names differ, a prefix first. */
  lemma {:induction false} BeforeIsLexicographic(a: string, b: string)
    ensures Before(a, b) <==> exists k: nat :: PartAt(a, b, k)
  {
    if Before(a, b) {
      if a == "" || a[0] < b[0] {
        assert PartAt(a, b, 0);
      } else {
        BeforeIsLexicographic(a[1..], b[1..]);
        var k: nat :| PartAt(a[1..], b[1..], k);
        assert a[..k + 1] == [a[0]] + a[1..][..k] && b[..k + 1] == [b[0]] + b[1..][..k];
        assert PartAt(a, b, k + 1);
      }
    }
    if k: nat :| PartAt(a, b, k) {
      if k > 0 {
        assert a[0] == a[..k][0] == b[..k][0] == b[0];
        assert a[1..][..k - 1] == a[..k][1..] == b[..k][1..] == b[1..][..k - 1];
        assert PartAt(a[1..], b[1..], k - 1);
        BeforeIsLexicographic(a[1..], b[1..]);
      }
    }
  }

  /** The keys of a std::map in the order in which a range-for visits them. */
  method InOrder(names: set<Name>) returns (order: seq<Name>)
    ensures forall x :: x in order <==> x in names
    ensures forall i, j | 0 <= i < j < |order| :: Before(order[i], order[j])
  {
    order := [];
    var rest := names;
    while rest != {}
      invariant rest <= names
      invariant forall x :: x in order <==> x in names - rest
      invariant forall i, j | 0 <= i < j < |order| :: Before(order[i], order[j])
      invariant forall x, y | x in order && y in rest :: Before(x, y)
    {
      var least := Least(rest);
      order, rest := order + [least], rest - {least};
    }
  }

  method Least(names: set<Name>) returns (least: Name)
    requires names != {}
    ensures least in names
    ensures forall x | x in names && x != least :: Before(least, x)
  {
    least :| least in names;
    var rest := names - {least};
    while rest != {}
      invariant rest <= names - {least}
      invariant least in names
      invariant forall x | x in names - rest && x != least :: Before(least, x)
    {
      var x :| x in rest;
      BeforeTotal(x, least);
      if Before(x, least) {
        forall y | y in names - rest && y != least ensures Before(x, y) {
          BeforeTransitive(x, least, y);
        }
        least := x;
      }
      rest := rest - {x};
    }
  }
}
