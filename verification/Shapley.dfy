/** The Shapley value as shapley.go computes it, and the laws that make it one. */
module Shapley {
  import opened Sums
  import opened Masks

  // ---- weighted marginal contributions ----
  // g(s, x) is the worth of coalition x weighted for a coalition of size s.

  /** What player i adds to coalition m, weighted by m's size. */
  function Term(g: (int, nat) -> real, i: nat, m: nat): real {
    if Bit(m, i) then 0.0 else g(Ones(m), m + Pow2(i)) - g(Ones(m), m)
  }

  function Terms(g: (int, nat) -> real, i: nat): nat -> real {
    (m: nat) => Term(g, i, m)
  }

  function Value(g: (int, nat) -> real, n: nat, i: nat): real {
    Sum(Terms(g, i), Pow2(n))
  }

  function Values(g: (int, nat) -> real, n: nat): nat -> real {
    (i: nat) => Value(g, n, i)
  }

  /** The worth of m as player i's value counts it: gained by joining, lost by staying out. */
  function Counted(g: (int, nat) -> real, i: nat, m: nat): real {
    if Bit(m, i) then g(Ones(m) - 1, m) else -g(Ones(m), m)
  }

  function CountedAll(g: (int, nat) -> real): (nat, nat) -> real {
    (i: nat, m: nat) => Counted(g, i, m)
  }

  lemma TermIsGathered(g: (int, nat) -> real, i: nat, m: nat)
    ensures Gathered(Row(CountedAll(g), i), i)(m) == Term(g, i, m)
  {
    if !Bit(m, i) {
      OnesAfterAdding(m, i);
      BitsAfterAdding(m, i, i);
      assert Row(CountedAll(g), i)(m) == Counted(g, i, m);
      assert Row(CountedAll(g), i)(m + Pow2(i)) == Counted(g, i, m + Pow2(i));
    }
  }

  /** A player's value regrouped by coalition instead of by marginal contribution. */
  lemma ValueByCoalition(g: (int, nat) -> real, n: nat, i: nat)
    requires i < n
    ensures Value(g, n, i) == Sum(Row(CountedAll(g), i), Pow2(n))
  {
    var f := Row(CountedAll(g), i);
    SplitOnBit(f, i, n);
    forall m: nat | m < Pow2(n) ensures Gathered(f, i)(m) == Terms(g, i)(m) {
      TermIsGathered(g, i, m);
    }
    SumCongruent(Gathered(f, i), Terms(g, i), Pow2(n));
  }

  lemma ColumnIsMembership(g: (int, nat) -> real, m: nat, gain: real, loss: real, n: nat)
    requires gain == g(Ones(m) - 1, m) && loss == -g(Ones(m), m)
    ensures Sum(Column(CountedAll(g), m), n) == Sum(Membership(m, gain, loss), n)
  {
    var f := Column(CountedAll(g), m);
    forall i: nat ensures f(i) == Membership(m, gain, loss)(i) {
      assert f(i) == Counted(g, i, m);
    }
    SumCongruent(f, Membership(m, gain, loss), n);
  }

  /** How often, with sign, coalition m is counted over all n players. */
  function Total(g: (int, nat) -> real, n: nat, m: nat): real {
    Weigh(Ones(m), n, g(Ones(m) - 1, m), -g(Ones(m), m))
  }

  lemma CoalitionByPlayer(g: (int, nat) -> real, n: nat, m: nat)
    requires m < Pow2(n)
    ensures Sum(Column(CountedAll(g), m), n) == Total(g, n, m)
  {
    var gain, loss := g(Ones(m) - 1, m), -g(Ones(m), m);
    ColumnIsMembership(g, m, gain, loss, n);
    SumByMembership(m, n, gain, loss);
  }

  lemma FirstAndLast(f: nat -> real, n: nat)
    requires n >= 2
    requires forall m: nat :: 0 < m < n - 1 ==> f(m) == 0.0
    ensures Sum(f, n) == f(0) + f(n - 1)
  {
    SumSingle(f, 0, n - 1);
  }

  function Totals(g: (int, nat) -> real, n: nat): nat -> real {
    (m: nat) => Total(g, n, m)
  }

  /** Double counting: player by player or coalition by coalition. */
  lemma SumByCoalition(g: (int, nat) -> real, n: nat)
    ensures Sum(Values(g, n), n) == Sum(Totals(g, n), Pow2(n))
  {
    var c := CountedAll(g);
    forall i: nat | i < n ensures Values(g, n)(i) == RowSums(c, Pow2(n))(i) {
      ValueByCoalition(g, n, i);
    }
    SumCongruent(Values(g, n), RowSums(c, Pow2(n)), n);
    SumSwap(c, n, Pow2(n));
    forall m: nat | m < Pow2(n) ensures ColumnSums(c, n)(m) == Totals(g, n)(m) {
      CoalitionByPlayer(g, n, m);
    }
    SumCongruent(ColumnSums(c, n), Totals(g, n), Pow2(n));
  }

  /** A share per coalition size that counts the grand coalition once, the empty one
      once negatively, and cancels every other. */
  ghost predicate Balanced(share: int -> real, n: nat) {
    forall s :: 0 <= s <= n ==> SignedShare(share, n, s) == if s == 0 then -1.0 else if s == n then 1.0 else 0.0
  }

  function SignedShare(share: int -> real, n: nat, s: int): real {
    s as real * share(s - 1) - (n - s) as real * share(s)
  }

  /** A game v over coalitions, weighted by coalition size. */
  function Weighted(v: nat -> real, share: int -> real): (int, nat) -> real {
    (s: int, x: nat) => share(s) * v(x)
  }

  lemma Factor(p: real, a: real, q: real, b: real, x: real)
    ensures p * (a * x) + q * (-(b * x)) == (p * a - q * b) * x
  {
    assert p * (a * x) == (p * a) * x;
    assert q * (-(b * x)) == -((q * b) * x);
  }

  lemma WeighShares(share: int -> real, n: nat, s: nat, x: real)
    requires s <= n
    ensures Weigh(s, n, share(s - 1) * x, -(share(s) * x)) == SignedShare(share, n, s) * x
  {
    WeighIsProduct(s, n, share(s - 1) * x, -(share(s) * x));
    Factor(s as real, share(s - 1), (n - s) as real, share(s), x);
  }

  lemma BalancedTotal(v: nat -> real, share: int -> real, n: nat, m: nat)
    requires 0 < n && m < Pow2(n) && Balanced(share, n)
    ensures Total(Weighted(v, share), n, m) == if m == 0 then -v(m) else if m == Pow2(n) - 1 then v(m) else 0.0
  {
    OnesBounds(m, n);
    SizeTotal(v, share, n, Ones(m), m);
  }

  lemma SizeTotal(v: nat -> real, share: int -> real, n: nat, s: nat, x: nat)
    requires 0 < n && s <= n && Balanced(share, n)
    ensures Weigh(s, n, Weighted(v, share)(s - 1, x), -Weighted(v, share)(s, x))
         == if s == 0 then -v(x) else if s == n then v(x) else 0.0
  {
    var k, y := SignedShare(share, n, s), v(x);
    assert k == if s == 0 then -1.0 else if s == n then 1.0 else 0.0;
    assert Weighted(v, share)(s - 1, x) == share(s - 1) * y && Weighted(v, share)(s, x) == share(s) * y;
    hide Weighted, SignedShare, Weigh, Balanced;
    WeighShares(share, n, s, y);
    Units(k, y);
  }

  lemma Units(k: real, x: real)
    ensures k == 1.0 ==> k * x == x
    ensures k == -1.0 ==> k * x == -x
    ensures k == 0.0 ==> k * x == 0.0
  {
  }

  lemma BalancedIsEfficient(v: nat -> real, share: int -> real, n: nat)
    requires n > 0 && Balanced(share, n)
    ensures Sum(Values(Weighted(v, share), n), n) == v(Pow2(n) - 1) - v(0)
  {
    hide Total, Weighted, Ones, Bit, SignedShare;
    var g := Weighted(v, share);
    SumByCoalition(g, n);
    forall m: nat | m < Pow2(n)
      ensures Totals(g, n)(m) == if m == 0 then -v(m) else if m == Pow2(n) - 1 then v(m) else 0.0
    {
      BalancedTotal(v, share, n, m);
    }
    assert Pow2(n) == 2 * Pow2(n - 1);
    FirstAndLast(Totals(g, n), Pow2(n));
  }

  // ---- the weights of the Shapley value ----

  function Factorial(k: nat): (f: real)
    ensures f >= 1.0
  {
    if k == 0 then 1.0 else Factorial(k - 1) * k as real
  }

  /** Weight of a coalition of s players out of n: s! (n-s-1)! / n!. */
  function Share(n: int, s: int): (w: real)
    ensures 0 <= s < n ==> w > 0.0
  {
    if 0 <= s < n then
      var top := Factorial(s) * Factorial(n - s - 1);
      assert top > 0.0;
      top / Factorial(n)
    else 0.0
  }

  function Shares(n: nat): int -> real {
    (s: int) => Share(n, s)
  }

  /** The Shapley value of player i among n for the game v: shapley.go's closed form. */
  function ExactPhi(v: nat -> real, n: nat, i: nat): real {
    Value(Weighted(v, Shares(n)), n, i)
  }

  lemma QuotientTimes(t: real, d: real)
    requires d != 0.0
    ensures (t / d) * d == t
  {
  }

  lemma FactorialStep(k: nat)
    requires k > 0
    ensures Factorial(k) == Factorial(k - 1) * k as real
  {
  }

  lemma ShareTimesFactorial(n: nat, s: nat)
    requires s < n
    ensures Share(n, s) * Factorial(n) == Factorial(s) * Factorial(n - s - 1)
  {
    hide Factorial;
    QuotientTimes(Factorial(s) * Factorial(n - s - 1), Factorial(n));
  }

  lemma CancelFactor(x: real, y: real, d: real)
    requires d > 0.0 && x * d == y * d
    ensures x == y
  {
  }

  lemma EqualShares(w1: real, w2: real, d: real, a: real, b: real, c: real, e: real, p: real, q: real)
    requires d > 0.0 && w1 * d == a * b && w2 * d == e * c && e == a * p && b == c * q
    ensures p * w1 == q * w2
  {
    calc {
      (p * w1) * d;
      p * (w1 * d);
      p * (a * b);
      (a * p) * b;
      e * (c * q);
      q * (e * c);
      q * (w2 * d);
      (q * w2) * d;
    }
    CancelFactor(p * w1, q * w2, d);
  }

  lemma WholeShare(w: real, d: real, a: real, p: real)
    requires a > 0.0 && d == a * p && w * d == a
    ensures p * w == 1.0
  {
    assert (p * w) * a == w * (a * p);
    CancelFactor(p * w, 1.0, a);
  }

  /** n * Share(n, 0) and n * Share(n, n-1) are both 1. */
  lemma OuterShares(n: nat)
    requires 0 < n
    ensures n as real * Share(n, 0) == 1.0
    ensures n as real * Share(n, n - 1) == 1.0
  {
    assert Factorial(0) == 1.0;
    hide Factorial, Share;
    FactorialStep(n);
    ShareTimesFactorial(n, 0);
    ShareTimesFactorial(n, n - 1);
    WholeShare(Share(n, 0), Factorial(n), Factorial(n - 1), n as real);
    WholeShare(Share(n, n - 1), Factorial(n), Factorial(n - 1), n as real);
  }

  /** Joining and leaving balance for every size in between. */
  lemma InnerShares(n: nat, s: nat)
    requires 0 < s < n
    ensures s as real * Share(n, s - 1) == (n - s) as real * Share(n, s)
  {
    hide Factorial, Share;
    ShareTimesFactorial(n, s - 1);
    ShareTimesFactorial(n, s);
    FactorialStep(s);
    FactorialStep(n - s);
    EqualShares(Share(n, s - 1), Share(n, s), Factorial(n), Factorial(s - 1), Factorial(n - s),
                Factorial(n - s - 1), Factorial(s), s as real, (n - s) as real);
  }

  lemma SharesBalance(n: nat, s: nat)
    requires 0 < n && s <= n
    ensures SignedShare(Shares(n), n, s) == if s == 0 then -1.0 else if s == n then 1.0 else 0.0
  {
    assert Shares(n)(s - 1) == Share(n, s - 1) && Shares(n)(s) == Share(n, s);
    assert Share(n, -1) == 0.0 && Share(n, n) == 0.0;
    hide Share, Factorial;
    if s == 0 || s == n {
      OuterShares(n);
    } else {
      InnerShares(n, s);
    }
  }

  function ExactPhis(v: nat -> real, n: nat): nat -> real {
    (i: nat) => ExactPhi(v, n, i)
  }

  /** Efficiency: for any game at all, the values sum to v(everyone) - v(no one). */
  lemma Efficiency(v: nat -> real, n: nat)
    ensures Sum(ExactPhis(v, n), n) == v(Pow2(n) - 1) - v(0)
  {
    if n > 0 {
      forall s | 0 <= s <= n
        ensures SignedShare(Shares(n), n, s) == if s == 0 then -1.0 else if s == n then 1.0 else 0.0
      {
        SharesBalance(n, s);
      }
      BalancedIsEfficient(v, Shares(n), n);
      SumCongruent(ExactPhis(v, n), Values(Weighted(v, Shares(n)), n), n);
    }
  }

  // ---- comparing games and players ----

  /** What player i adds to coalition m. */
  function Marginal(v: nat -> real, i: nat, m: nat): real {
    v(m + Pow2(i)) - v(m)
  }

  lemma TermIsShareOfMarginal(v: nat -> real, n: nat, i: nat, m: nat)
    ensures Term(Weighted(v, Shares(n)), i, m) == if Bit(m, i) then 0.0 else Share(n, Ones(m)) * Marginal(v, i, m)
  {
    hide Share, Ones, Bit, Pow2;
  }

  lemma ShareOfMore(n: nat, s: nat, x: real, y: real)
    requires s < n && x <= y
    ensures Share(n, s) * x <= Share(n, s) * y
    ensures x < y ==> Share(n, s) * x < Share(n, s) * y
  {
    var w := Share(n, s);
    assert w > 0.0;
    hide Share;
  }

  lemma OnesOfPartial(m: nat, i: nat, n: nat)
    requires i < n && m < Pow2(n) && !Bit(m, i)
    ensures Ones(m) < n
  {
    OnesAfterAdding(m, i);
    AddedInRange(m, i, n);
    OnesBounds(m + Pow2(i), n);
  }

  /** A player who adds no less to every coalition is worth no less. */
  lemma PhiMonotone(v: nat -> real, u: nat -> real, n: nat, i: nat)
    requires i < n
    requires forall m: nat :: m < Pow2(n) && !Bit(m, i) ==> Marginal(v, i, m) <= Marginal(u, i, m)
    ensures ExactPhi(v, n, i) <= ExactPhi(u, n, i)
    ensures Marginal(v, i, 0) < Marginal(u, i, 0) ==> ExactPhi(v, n, i) < ExactPhi(u, n, i)
  {
    hide Term, Share, Weighted, Ones, Marginal;
    var f, h := Terms(Weighted(v, Shares(n)), i), Terms(Weighted(u, Shares(n)), i);
    forall m: nat | m < Pow2(n)
      ensures f(m) <= h(m)
      ensures !Bit(m, i) && Marginal(v, i, m) < Marginal(u, i, m) ==> f(m) < h(m)
    {
      TermIsShareOfMarginal(v, n, i, m);
      TermIsShareOfMarginal(u, n, i, m);
      if !Bit(m, i) {
        OnesOfPartial(m, i, n);
        ShareOfMore(n, Ones(m), Marginal(v, i, m), Marginal(u, i, m));
      }
    }
    SumMonotone(f, h, Pow2(n));
    EmptyMask(i);
    if Marginal(v, i, 0) < Marginal(u, i, 0) {
      SumStrictlyMonotone(f, h, 0, Pow2(n));
    }
  }

  /** The game that pays c to every coalition with player i in it. */
  function Dictator(i: nat, c: real): nat -> real {
    (m: nat) => if Bit(m, i) then c else 0.0
  }

  lemma DictatorMarginal(i: nat, c: real, j: nat, m: nat)
    requires !Bit(m, j)
    ensures Marginal(Dictator(i, c), j, m) == if i == j then c else 0.0
  {
    BitsAfterAdding(m, j, i);
  }

  lemma NullPlayer(v: nat -> real, n: nat, i: nat)
    requires i < n
    requires forall m: nat :: m < Pow2(n) && !Bit(m, i) ==> Marginal(v, i, m) == 0.0
    ensures ExactPhi(v, n, i) == 0.0
  {
    hide Term, Share, Weighted, Ones, Marginal;
    var f := Terms(Weighted(v, Shares(n)), i);
    forall m: nat | m < Pow2(n) ensures f(m) == 0.0 {
      TermIsShareOfMarginal(v, n, i, m);
    }
    SumZero(f, Pow2(n));
  }

  lemma {:induction false} FullHasEveryBit(n: nat, i: nat)
    requires i < n
    ensures Bit(Pow2(n) - 1, i)
  {
    if i > 0 {
      assert (Pow2(n) - 1) / 2 == Pow2(n - 1) - 1;
      FullHasEveryBit(n - 1, i - 1);
    }
  }

  /** The coalition weights of one player sum to 1: efficiency of a dictator's game. */
  lemma DictatorGetsAll(n: nat, i: nat, c: real)
    requires i < n
    ensures ExactPhi(Dictator(i, c), n, i) == c
  {
    var v := Dictator(i, c);
    forall j: nat | j < n && j != i ensures ExactPhi(v, n, j) == 0.0 {
      forall m: nat | m < Pow2(n) && !Bit(m, j) ensures Marginal(v, j, m) == 0.0 {
        DictatorMarginal(i, c, j, m);
      }
      NullPlayer(v, n, j);
    }
    Efficiency(v, n);
    hide ExactPhi;
    SumSingle(ExactPhis(v, n), i, n);
    FullHasEveryBit(n, i);
    EmptyMask(i);
  }

  /** A player's value lies between the least and the greatest amount it ever adds. */
  lemma PhiWithinMarginals(v: nat -> real, n: nat, i: nat, low: real, high: real)
    requires i < n
    requires forall m: nat :: m < Pow2(n) && !Bit(m, i) ==> low <= Marginal(v, i, m) <= high
    ensures low <= ExactPhi(v, n, i) <= high
    ensures low < Marginal(v, i, 0) ==> low < ExactPhi(v, n, i)
    ensures Marginal(v, i, 0) < high ==> ExactPhi(v, n, i) < high
  {
    DictatorGetsAll(n, i, low);
    DictatorGetsAll(n, i, high);
    EmptyMask(i);
    hide ExactPhi, Marginal, Dictator;
    forall m: nat | m < Pow2(n) && !Bit(m, i)
      ensures Marginal(Dictator(i, low), i, m) == low && Marginal(Dictator(i, high), i, m) == high
    {
      DictatorMarginal(i, low, i, m);
      DictatorMarginal(i, high, i, m);
    }
    PhiMonotone(Dictator(i, low), v, n, i);
    PhiMonotone(v, Dictator(i, high), n, i);
  }

  // ---- ranking: a player who is never the worse choice is worth no less ----

  function TermGap(g: (int, nat) -> real, i: nat, j: nat): nat -> real {
    (m: nat) => Term(g, i, m) - Term(g, j, m)
  }

  lemma GatheredTwice(f: nat -> real, i: nat, j: nat, m: nat)
    requires !Bit(m, i) && !Bit(m, j) && !Bit(m + Pow2(j), i)
    ensures Gathered(Gathered(f, i), j)(m)
         == f(m) + f(m + Pow2(i)) + f(m + Pow2(j)) + f(m + Pow2(j) + Pow2(i))
  {
    hide Bit, Pow2;
    assert Gathered(Gathered(f, i), j)(m) == GatheredAt(f, i, m) + GatheredAt(f, i, m + Pow2(j));
  }

  lemma GatheredOther(f: nat -> real, i: nat, j: nat, m: nat)
    requires Bit(m, j) || (Bit(m, i) && Bit(m + Pow2(j), i))
    ensures Gathered(Gathered(f, i), j)(m) == 0.0
  {
    hide Bit, Pow2;
    assert !Bit(m, j) ==>
      Gathered(Gathered(f, i), j)(m) == GatheredAt(f, i, m) + GatheredAt(f, i, m + Pow2(j));
  }

  lemma TwoBits(i: nat, j: nat, m: nat)
    requires i != j && !Bit(m, i) && !Bit(m, j)
    ensures Bit(m + Pow2(i), i) && !Bit(m + Pow2(i), j) && Ones(m + Pow2(i)) == Ones(m) + 1
    ensures Bit(m + Pow2(j) + Pow2(i), i) && Bit(m + Pow2(j) + Pow2(i), j)
  {
    hide Bit, Ones, Pow2;
    BitsAfterAdding(m, i, i);
    BitsAfterAdding(m, i, j);
    OnesAfterAdding(m, i);
    BitsAfterAdding(m, j, i);
    BitsAfterAdding(m, j, j);
    BitsAfterAdding(m + Pow2(j), i, i);
    BitsAfterAdding(m + Pow2(j), i, j);
  }

  /** Over the four coalitions m, m+i, m+j, m+i+j the gap is what i brings over j, twice. */
  lemma FourWayGap(g: (int, nat) -> real, i: nat, j: nat, m: nat)
    requires i != j && !Bit(m, i) && !Bit(m, j)
    ensures Gathered(Gathered(TermGap(g, i, j), i), j)(m)
         == g(Ones(m), m + Pow2(i)) - g(Ones(m), m + Pow2(j))
          + g(Ones(m) + 1, m + Pow2(i)) - g(Ones(m) + 1, m + Pow2(j))
  {
    hide Bit, Ones, Pow2, Gathered;
    var p, q := Pow2(i), Pow2(j);
    TwoBits(i, j, m);
    TwoBits(j, i, m);
    GatheredTwice(TermGap(g, i, j), i, j, m);
    assert m + p + q == m + q + p;
    assert Term(g, i, m + q) == g(Ones(m) + 1, m + q + p) - g(Ones(m) + 1, m + q);
    assert Term(g, j, m + p) == g(Ones(m) + 1, m + p + q) - g(Ones(m) + 1, m + p);
  }

  lemma WeightedMore(v: nat -> real, n: nat, s: nat, x: nat, y: nat)
    requires s < n && v(x) <= v(y)
    ensures Weighted(v, Shares(n))(s, x) <= Weighted(v, Shares(n))(s, y)
    ensures v(x) < v(y) ==> Weighted(v, Shares(n))(s, x) < Weighted(v, Shares(n))(s, y)
  {
    ShareOfMore(n, s, v(x), v(y));
    hide Share;
  }

  lemma RankRespectsMarginals(v: nat -> real, n: nat, i: nat, j: nat)
    requires i < n && j < n && i != j
    requires forall m: nat :: m < Pow2(n) && !Bit(m, i) && !Bit(m, j) ==> v(m + Pow2(j)) <= v(m + Pow2(i))
    ensures ExactPhi(v, n, j) <= ExactPhi(v, n, i)
    ensures v(Pow2(j)) < v(Pow2(i)) ==> ExactPhi(v, n, j) < ExactPhi(v, n, i)
  {
    hide Gathered, Pow2, Bit, Ones, Share, Term;
    var g := Weighted(v, Shares(n));
    var d := TermGap(g, i, j);
    var f := Gathered(Gathered(d, i), j);
    SplitOnBit(d, i, n);
    SplitOnBit(Gathered(d, i), j, n);
    forall m: nat | m < Pow2(n) ensures 0.0 <= f(m) {
      GapNonNegative(v, n, i, j, m);
    }
    SumMonotone(m => 0.0, f, Pow2(n));
    SumZero(m => 0.0, Pow2(n));
    if v(Pow2(j)) < v(Pow2(i)) {
      EmptyMask(i);
      EmptyMask(j);
      GapNonNegative(v, n, i, j, 0);
      SumStrictlyMonotone(m => 0.0, f, 0, Pow2(n));
    }
    SumPlus(Terms(g, j), d, Terms(g, i), Pow2(n));
  }

  lemma GapNonNegative(v: nat -> real, n: nat, i: nat, j: nat, m: nat)
    requires i < n && j < n && i != j && m < Pow2(n)
    requires !Bit(m, i) && !Bit(m, j) ==> v(m + Pow2(j)) <= v(m + Pow2(i))
    ensures 0.0 <= Gathered(Gathered(TermGap(Weighted(v, Shares(n)), i, j), i), j)(m)
    ensures !Bit(m, i) && !Bit(m, j) && v(m + Pow2(j)) < v(m + Pow2(i)) ==>
      0.0 < Gathered(Gathered(TermGap(Weighted(v, Shares(n)), i, j), i), j)(m)
  {
    hide Ones, Share, Bit, Pow2, TermGap, Term, Weighted, Gathered;
    if Bit(m, j) {
      GatheredOther(TermGap(Weighted(v, Shares(n)), i, j), i, j, m);
    } else if Bit(m, i) {
      BitsAfterAdding(m, j, i);
      GatheredOther(TermGap(Weighted(v, Shares(n)), i, j), i, j, m);
    } else {
      FourWayGap(Weighted(v, Shares(n)), i, j, m);
      OnesOfPartial(m, i, n);
      AddedInRange(m, i, n);
      TwoBits(i, j, m);
      OnesOfPartial(m + Pow2(i), j, n);
      WeightedMore(v, n, Ones(m), m + Pow2(j), m + Pow2(i));
      WeightedMore(v, n, Ones(m) + 1, m + Pow2(j), m + Pow2(i));
    }
  }
}
