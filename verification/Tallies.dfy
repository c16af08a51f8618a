/** How many elements of a list have a property. */
module Tallies {

  ghost function Where<T(!new)>(xs: seq<T>, P: T -> bool): set<nat> {
    set i: nat | i < |xs| && P(xs[i])
  }

  ghost function Tally<T(!new)>(xs: seq<T>, P: T -> bool): nat {
    |Where(xs, P)|
  }

  lemma TallyNone<T(!new)>(P: T -> bool)
    ensures Tally([], P) == 0
  {
    assert Where([], P) == {};
  }

  lemma TallyOneMore<T(!new)>(xs: seq<T>, x: T, P: T -> bool)
    ensures Tally(xs + [x], P) == Tally(xs, P) + if P(x) then 1 else 0
  {
    var more, w := Where(xs + [x], P), Where(xs, P);
    assert forall i: nat :: i < |xs| ==> (xs + [x])[i] == xs[i];
    if P(x) {
      assert more == w + {|xs|};
    } else {
      assert more == w;
    }
  }

  lemma TallyLast<T(!new)>(xs: seq<T>, P: T -> bool)
    requires xs != []
    ensures Tally(xs, P) == Tally(xs[..|xs| - 1], P) + if P(xs[|xs| - 1]) then 1 else 0
  {
    assert xs == xs[..|xs| - 1] + [xs[|xs| - 1]];
    TallyOneMore(xs[..|xs| - 1], xs[|xs| - 1], P);
  }

  lemma TallyPositive<T(!new)>(xs: seq<T>, P: T -> bool)
    ensures Tally(xs, P) > 0 <==> exists x :: x in xs && P(x)
  {
    var w := Where(xs, P);
    if x :| x in xs && P(x) {
      var i :| 0 <= i < |xs| && xs[i] == x;
      assert i in w;
    }
    if w != {} {
      var i :| i in w;
      assert xs[i] in xs;
    }
  }

  lemma TallyAtMost<T(!new)>(xs: seq<T>, P: T -> bool, Q: T -> bool)
    requires forall x :: x in xs && P(x) ==> Q(x)
    ensures Tally(xs, P) <= Tally(xs, Q) <= |xs|
  {
    var p, q := Where(xs, P), Where(xs, Q);
    assert p <= q;
    Fewer(p, q);
    Below(q, |xs|);
  }

  lemma Fewer(a: set<nat>, b: set<nat>)
    requires a <= b
    ensures |a| <= |b|
  {
    assert b == a + (b - a);
  }

  lemma {:induction false} Below(s: set<nat>, n: nat)
    requires forall i :: i in s ==> i < n
    ensures |s| <= n
  {
    if n == 0 {
      assert s == {};
    } else {
      Below(s - {n - 1}, n - 1);
    }
  }
}
