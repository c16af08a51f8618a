/** What shuffling reaches, and what sampling estimates: averaged over all its draws, one round
    of sampling gives every player exactly the Shapley value (shapley.go, sampledShapley). */
module Arrivals {
  import opened Sums
  import opened Masks
  import opened Shapley
  import opened Sampling

  // ---- every order, by exactly one sequence of swaps ----

  lemma {:induction false} ShuffleKeepsAbove(p: seq<nat>, draw: nat -> nat, i: nat, k: nat)
    requires i < k < |p|
    ensures ShuffleDown(p, draw, i)[k] == p[k]
    decreases i
  {
    if i > 0 {
      ShuffleKeepsAbove(Swap(p, i, Target(draw, i)), draw, i - 1, k);
    }
  }

  lemma {:induction false} DrawsBelow(p: seq<nat>, d: nat -> nat, e: nat -> nat, i: nat)
    requires i < |p| || i == 0
    requires forall k :: 0 < k <= i ==> d(k) == e(k)
    ensures ShuffleDown(p, d, i) == ShuffleDown(p, e, i)
    decreases i
  {
    if i > 0 {
      DrawsBelow(Swap(p, i, Target(d, i)), d, e, i - 1);
    }
  }

  function Prefer(i: nat, t: nat, draw: nat -> nat): nat -> nat {
    (k: nat) => if k == i then t else draw(k)
  }

  lemma SwapKeepsOrder(p: seq<nat>, n: nat, i: nat, j: nat)
    requires IsOrder(p, n) && i < n && j < n
    ensures IsOrder(Swap(p, i, j), n)
  {
  }

  lemma OncePlaced(p: seq<nat>, n: nat, s: nat, t: nat)
    requires IsOrder(p, n) && s < n && t < n && p[s] == p[t]
    ensures s == t
  {
  }

  lemma {:induction false} ShuffleDownReaches(p: seq<nat>, q: seq<nat>, i: nat, n: nat) returns (draw: nat -> nat)
    requires IsOrder(p, n) && IsOrder(q, n) && i < n && forall k :: i < k < n ==> p[k] == q[k]
    ensures ShuffleDown(p, draw, i) == q
    decreases i
  {
    hide IsOrder, Target, ShuffleDown;
    var t := Standing(p, q, i, n);
    if i == 0 {
      draw := (k: nat) => 0;
      assert p == q;
      NothingToShuffle(p, draw);
    } else {
      SwapKeepsOrder(p, n, i, t);
      var rest := ShuffleDownReaches(Swap(p, i, t), q, i - 1, n);
      draw := Prefer(i, t, rest);
      PreferredShuffle(p, i, t, rest);
    }
  }

  lemma NothingToShuffle(p: seq<nat>, draw: nat -> nat)
    ensures ShuffleDown(p, draw, 0) == p
  {
  }

  lemma PreferredShuffle(p: seq<nat>, i: nat, t: nat, rest: nat -> nat)
    requires t <= i < |p| && i > 0
    ensures ShuffleDown(p, Prefer(i, t, rest), i) == ShuffleDown(Swap(p, i, t), rest, i - 1)
  {
    PreferredTarget(i, t, rest);
    DrawsBelow(Swap(p, i, t), Prefer(i, t, rest), rest, i - 1);
    hide Target;
  }

  lemma PreferredTarget(i: nat, t: nat, draw: nat -> nat)
    requires t <= i
    ensures Target(Prefer(i, t, draw), i) == t
  {
  }

  lemma Standing(p: seq<nat>, q: seq<nat>, i: nat, n: nat) returns (t: nat)
    requires IsOrder(p, n) && IsOrder(q, n) && i < n && forall k :: i < k < n ==> p[k] == q[k]
    ensures |p| == n == |q| && t <= i && p[t] == q[i]
  {
    t := EveryPlayerArrives(p, n, q[i]);
    if t > i {
      OncePlaced(q, n, t, i);
    }
  }

  /** From any order every order can be shuffled. */
  lemma ShuffleReaches(p: seq<nat>, q: seq<nat>, n: nat) returns (draw: nat -> nat)
    requires IsOrder(p, n) && IsOrder(q, n)
    ensures Shuffled(p, draw) == q
  {
    if n == 0 {
      draw := (k: nat) => 0;
      assert p == q;
    } else {
      draw := ShuffleDownReaches(p, q, n - 1, n);
    }
  }

  /** And by only one choice of positions to swap, so that equally likely draws make equally
      likely orders. */
  lemma {:induction false} ShuffleIsFair(p: seq<nat>, d: nat -> nat, e: nat -> nat, i: nat, n: nat)
    requires IsOrder(p, n) && i < n && |p| == n && ShuffleDown(p, d, i) == ShuffleDown(p, e, i)
    ensures forall k :: 0 < k <= i ==> Target(d, k) == Target(e, k)
    decreases i
  {
    hide IsOrder, Target;
    if i > 0 {
      var a, b := Target(d, i), Target(e, i);
      ShuffleKeepsAbove(Swap(p, i, a), d, i - 1, i);
      ShuffleKeepsAbove(Swap(p, i, b), e, i - 1, i);
      assert Swap(p, i, a)[i] == p[a] && Swap(p, i, b)[i] == p[b];
      OncePlaced(p, n, a, b);
      SwapKeepsOrder(p, n, i, a);
      ShuffleIsFair(Swap(p, i, a), d, e, i - 1, n);
    }
  }

  // ---- what one order gives ----

  /** A player gets what the coalition of those before it gains by it. */
  lemma OrderPhiAt(v: nat -> real, p: seq<nat>, n: nat, t: nat)
    requires IsOrder(p, n) && t < n
    ensures OrderPhi(v, p, p[t]) == v(Arrived(p, t + 1)) - v(Arrived(p, t))
    ensures forall k: nat :: Bit(Arrived(p, t), k) <==> exists s :: 0 <= s < t && p[s] == k
  {
    hide Bit, Pow2, Arrived;
    SumSingle(Row(Gains(v, p), p[t]), t, n);
    forall k: nat ensures Bit(Arrived(p, t), k) <==> exists s :: 0 <= s < t && p[s] == k {
      ArrivedBits(p, n, t, k);
    }
  }

  // ---- masks as sets ----

  lemma {:induction false} SameBits(a: nat, b: nat, n: nat)
    requires a < Pow2(n) && b < Pow2(n) && forall i: nat :: i < n ==> (Bit(a, i) <==> Bit(b, i))
    ensures a == b
  {
    if n > 0 {
      assert Bit(a, 0) <==> Bit(b, 0);
      forall i: nat | i < n - 1 ensures Bit(a / 2, i) <==> Bit(b / 2, i) {
        assert Bit(a, i + 1) <==> Bit(b, i + 1);
      }
      SameBits(a / 2, b / 2, n - 1);
    }
  }

  lemma {:induction false} BitWorth(m: nat, x: nat)
    requires Bit(m, x)
    ensures m >= Pow2(x) && !Bit(m - Pow2(x), x)
  {
    if x > 0 {
      BitWorth(m / 2, x - 1);
      assert (m - Pow2(x)) / 2 == m / 2 - Pow2(x - 1);
    }
  }

  /** A mask without one of its members. */
  function Less(m: nat, x: nat): nat
    requires Bit(m, x)
  {
    BitWorth(m, x);
    m - Pow2(x)
  }

  lemma LessIs(m: nat, x: nat)
    requires Bit(m, x)
    ensures !Bit(Less(m, x), x) && m == Less(m, x) + Pow2(x) && Ones(Less(m, x)) == Ones(m) - 1
    ensures forall k: nat :: k != x ==> (Bit(Less(m, x), k) <==> Bit(m, k))
  {
    BitWorth(m, x);
    var l := Less(m, x);
    hide Bit, Pow2, Ones;
    OnesAfterAdding(l, x);
    forall k: nat | k != x ensures Bit(l, k) <==> Bit(m, k) {
      BitsAfterAdding(l, x, k);
    }
  }

  ghost predicate Subset(s: nat, m: nat, n: nat) {
    forall i: nat :: i < n && Bit(s, i) ==> Bit(m, i)
  }

  predicate IsOther(s: nat, m: nat, pl: nat, x: nat) {
    x != pl && Bit(m, x) && !Bit(s, x)
  }

  function Others(s: nat, m: nat, pl: nat, k: nat): nat {
    if k == 0 then 0 else Others(s, m, pl, k - 1) + if IsOther(s, m, pl, k - 1) then 1 else 0
  }

  lemma {:induction false} OthersBelow(s: nat, m: nat, pl: nat, n: nat, k: nat)
    requires k <= n && Subset(s, m, n) && !Bit(s, pl) && Bit(m, pl)
    ensures Others(s, m, pl, k) + OnesBelow(s, k) + (if pl < k then 1 else 0) == OnesBelow(m, k)
  {
    hide Bit;
    if k > 0 {
      OthersBelow(s, m, pl, n, k - 1);
    }
  }

  /** Besides the player, a coalition has as many left to arrive as its size leaves. */
  lemma OthersCount(s: nat, m: nat, pl: nat, n: nat)
    requires s < Pow2(n) && m < Pow2(n) && pl < n && Subset(s, m, n) && !Bit(s, pl) && Bit(m, pl)
    ensures Others(s, m, pl, n) == Ones(m) - Ones(s) - 1 >= 0
  {
    hide Bit, Pow2, Ones, Subset;
    OthersBelow(s, m, pl, n, n);
    OnesBelowIsOnes(s, n);
    OnesBelowIsOnes(m, n);
  }

  lemma {:induction false} NoOther(s: nat, m: nat, pl: nat, k: nat)
    requires Others(s, m, pl, k) == 0
    ensures forall x: nat :: x < k ==> !IsOther(s, m, pl, x)
  {
    if k > 0 {
      NoOther(s, m, pl, k - 1);
    }
  }

  function IfOther(s: nat, m: nat, pl: nat, c: real): nat -> real {
    (x: nat) => if IsOther(s, m, pl, x) then c else 0.0
  }

  lemma {:induction false} SumOverOthers(s: nat, m: nat, pl: nat, c: real, k: nat)
    ensures Sum(IfOther(s, m, pl, c), k) == Others(s, m, pl, k) as real * c
  {
    hide IsOther;
    if k > 0 {
      SumOverOthers(s, m, pl, c, k - 1);
      OneMoreTimes(Others(s, m, pl, k - 1), c);
    }
  }

  // ---- the value of a player within a coalition that arrives first ----

  /** How many orders of a coalition have `a` given members before a given one, and `b` after. */
  function Arrangements(a: int, b: int): real {
    if a >= 0 && b >= 0 then Factorial(a) * Factorial(b) else 0.0
  }

  ghost function Piece(v: nat -> real, pl: nat, n: nat, m: nat, s: nat): real {
    if Subset(s, m, n) && !Bit(s, pl) then Arrangements(Ones(s), Ones(m) - Ones(s) - 1) * Marginal(v, pl, s) else 0.0
  }

  ghost function Pieces(v: nat -> real, pl: nat, n: nat, m: nat): nat -> real {
    (s: nat) => Piece(v, pl, n, m, s)
  }

  /** Summed over every order in which the coalition m can arrive, what the player gains. */
  ghost function Worth(v: nat -> real, pl: nat, n: nat, m: nat): real {
    Sum(Pieces(v, pl, n, m), Pow2(n))
  }

  /** The same, where x arrives last of m. */
  ghost function Before(v: nat -> real, pl: nat, n: nat, m: nat, x: nat, s: nat): real {
    if x != pl && Bit(m, x) then Piece(v, pl, n, Less(m, x), s) else 0.0
  }

  ghost function Befores(v: nat -> real, pl: nat, n: nat, m: nat): (nat, nat) -> real {
    (x: nat, s: nat) => Before(v, pl, n, m, x, s)
  }

  ghost function LastOther(v: nat -> real, pl: nat, n: nat, m: nat): nat -> real {
    (x: nat) => if x != pl && Bit(m, x) then Worth(v, pl, n, Less(m, x)) else 0.0
  }

  /** What the player gains in the orders in which it arrives last of m itself. */
  ghost function Own(v: nat -> real, pl: nat, m: nat): real {
    if Bit(m, pl) && Ones(m) >= 1 then Factorial(Ones(m) - 1) * Marginal(v, pl, Less(m, pl)) else 0.0
  }

  ghost function OnlyAt(k: nat, c: real): nat -> real {
    (s: nat) => if s == k then c else 0.0
  }

  lemma ArrangementsStep(a: nat, b: int)
    requires b >= 1
    ensures b as real * Arrangements(a, b - 1) == Arrangements(a, b)
  {
    FactorialStep(b);
    hide Factorial;
    Reorder(b as real, Factorial(a), Factorial(b - 1));
  }

  lemma Reorder(x: real, y: real, z: real)
    ensures x * (y * z) == y * (z * x)
  {
  }

  lemma Regroup(x: real, y: real, z: real)
    ensures x * (y * z) == x * y * z
  {
  }

  lemma SubsetOfLess(s: nat, m: nat, x: nat, n: nat)
    requires Bit(m, x) && x < n
    ensures Subset(s, Less(m, x), n) <==> Subset(s, m, n) && !Bit(s, x)
  {
    hide Bit, Less;
    LessIs(m, x);
    var l := Less(m, x);
    if Subset(s, l, n) {
      forall i: nat | i < n && Bit(s, i) ensures Bit(m, i) && i != x {
        assert Bit(l, i);
      }
    }
  }

  lemma BeforeIs(v: nat -> real, pl: nat, n: nat, m: nat, x: nat, s: nat)
    requires Subset(s, m, n) && !Bit(s, pl) && x < n
    ensures Before(v, pl, n, m, x, s)
         == if IsOther(s, m, pl, x) then Arrangements(Ones(s), Ones(m) - Ones(s) - 2) * Marginal(v, pl, s) else 0.0
  {
    hide Bit, Pow2, Ones, Marginal, Arrangements, Less, Subset;
    if x != pl && Bit(m, x) {
      var l := Less(m, x);
      LessIs(m, x);
      SubsetOfLess(s, m, x, n);
      assert Ones(l) - Ones(s) - 1 == Ones(m) - Ones(s) - 2;
    }
  }

  lemma BeforeIsNot(v: nat -> real, pl: nat, n: nat, m: nat, x: nat, s: nat)
    requires !(Subset(s, m, n) && !Bit(s, pl)) && x < n
    ensures Before(v, pl, n, m, x, s) == 0.0
  {
    hide Bit, Pow2, Ones, Marginal, Arrangements, Less, Subset;
    if x != pl && Bit(m, x) {
      LessIs(m, x);
      SubsetOfLess(s, m, x, n);
    }
  }

  lemma MissingOnlyThePlayer(s: nat, m: nat, pl: nat, n: nat)
    requires s < Pow2(n) && m < Pow2(n) && pl < n && Subset(s, m, n) && !Bit(s, pl) && Bit(m, pl)
    ensures Ones(m) - Ones(s) - 1 == 0 <==> s == Less(m, pl)
  {
    hide Bit, Pow2, Ones, Less;
    LessIs(m, pl);
    OthersCount(s, m, pl, n);
    if Others(s, m, pl, n) == 0 {
      NoOther(s, m, pl, n);
      assert forall x: nat :: x < n ==> !IsOther(s, m, pl, x) && (Bit(s, x) ==> Bit(m, x));
      assert Less(m, pl) < Pow2(n);
      SameBits(s, Less(m, pl), n);
    }
  }

  /** One subset's share of a coalition, split by who else of the coalition arrives last. */
  lemma PieceSplits(v: nat -> real, pl: nat, n: nat, m: nat, s: nat)
    requires m < Pow2(n) && pl < n && Bit(m, pl) && s < Pow2(n)
    ensures Ones(m) >= 1
    ensures Piece(v, pl, n, m, s)
         == Sum(Column(Befores(v, pl, n, m), s), n) + if s == Less(m, pl) then Own(v, pl, m) else 0.0
  {
    hide Bit, Pow2, Ones, Marginal, Factorial, Less, Arrangements, Subset, Sum, Before;
    LessIs(m, pl);
    LessIsSubset(m, pl, n);
    if Subset(s, m, n) && !Bit(s, pl) {
      var k, d := Ones(m) - Ones(s) - 1, Marginal(v, pl, s);
      OthersGain(v, pl, n, m, s);
      MissingOnlyThePlayer(s, m, pl, n);
      OthersCount(s, m, pl, n);
      SplitArithmetic(v, pl, m, s);
      assert Piece(v, pl, n, m, s) == Arrangements(Ones(s), k) * d;
      if k == 0 {
        assert s == Less(m, pl) && Ones(s) == Ones(m) - 1;
      }
    } else {
      assert s != Less(m, pl);
      forall x: nat | x < n ensures Column(Befores(v, pl, n, m), s)(x) == 0.0 {
        BeforeIsNot(v, pl, n, m, x, s);
      }
      SumZero(Column(Befores(v, pl, n, m), s), n);
    }
  }

  lemma OthersGain(v: nat -> real, pl: nat, n: nat, m: nat, s: nat)
    requires m < Pow2(n) && pl < n && Bit(m, pl) && s < Pow2(n) && Subset(s, m, n) && !Bit(s, pl)
    ensures Sum(Column(Befores(v, pl, n, m), s), n)
         == (Ones(m) - Ones(s) - 1) as real * (Arrangements(Ones(s), Ones(m) - Ones(s) - 2) * Marginal(v, pl, s))
  {
    hide Bit, Pow2, Ones, Marginal, Factorial, Less, Arrangements, Subset, Sum, Before, IsOther;
    var f := Column(Befores(v, pl, n, m), s);
    var c := Arrangements(Ones(s), Ones(m) - Ones(s) - 2) * Marginal(v, pl, s);
    forall x: nat | x < n ensures f(x) == IfOther(s, m, pl, c)(x) {
      BeforeIs(v, pl, n, m, x, s);
    }
    SumCongruent(f, IfOther(s, m, pl, c), n);
    SumOverOthers(s, m, pl, c, n);
    OthersCount(s, m, pl, n);
  }

  lemma LessIsSubset(m: nat, pl: nat, n: nat)
    requires Bit(m, pl)
    ensures Subset(Less(m, pl), m, n) && !Bit(Less(m, pl), pl)
  {
    hide Bit, Less;
    LessIs(m, pl);
  }

  lemma SplitArithmetic(v: nat -> real, pl: nat, m: nat, s: nat)
    requires Ones(m) - Ones(s) - 1 >= 0
    ensures var k, d := Ones(m) - Ones(s) - 1, Marginal(v, pl, s);
      Arrangements(Ones(s), k) * d
      == k as real * (Arrangements(Ones(s), k - 1) * d) + if k == 0 then Factorial(Ones(s)) * d else 0.0
  {
    var k, d := Ones(m) - Ones(s) - 1, Marginal(v, pl, s);
    hide Marginal, Ones;
    if k == 0 {
      assert Factorial(0) == 1.0;
      assert Arrangements(Ones(s), 0) == Factorial(Ones(s));
    } else {
      ArrangementsStep(Ones(s), k);
      Regroup(k as real, Arrangements(Ones(s), k - 1), d);
    }
  }

  /** A coalition's orders by who arrives last: the player itself, or one of the others. */
  lemma WorthSplits(v: nat -> real, pl: nat, n: nat, m: nat)
    requires m < Pow2(n) && pl < n && Bit(m, pl)
    ensures Ones(m) >= 1
    ensures Worth(v, pl, n, m)
         == Sum(LastOther(v, pl, n, m), n) + Factorial(Ones(m) - 1) * Marginal(v, pl, Less(m, pl))
  {
    hide Bit, Pow2, Ones, Marginal, Factorial, Less, Piece, Sum, Before;
    LessIs(m, pl);
    PieceSplits(v, pl, n, m, Less(m, pl));
    var f, own := Befores(v, pl, n, m), OnlyAt(Less(m, pl), Own(v, pl, m));
    forall s: nat | s < Pow2(n) ensures Pieces(v, pl, n, m)(s) == ColumnSums(f, n)(s) + own(s) {
      PieceSplits(v, pl, n, m, s);
    }
    SumPlus(ColumnSums(f, n), own, Pieces(v, pl, n, m), Pow2(n));
    SumSingle(own, Less(m, pl), Pow2(n));
    SumSwap(f, n, Pow2(n));
    forall x: nat | x < n ensures RowSums(f, Pow2(n))(x) == LastOther(v, pl, n, m)(x) {
      RowIsWorth(v, pl, n, m, x);
    }
    SumCongruent(RowSums(f, Pow2(n)), LastOther(v, pl, n, m), n);
  }

  lemma RowIsWorth(v: nat -> real, pl: nat, n: nat, m: nat, x: nat)
    ensures RowSums(Befores(v, pl, n, m), Pow2(n))(x) == LastOther(v, pl, n, m)(x)
  {
    hide Bit, Pow2, Piece, Less;
    var row := Row(Befores(v, pl, n, m), x);
    if x != pl && Bit(m, x) {
      SumCongruent(row, Pieces(v, pl, n, Less(m, x)), Pow2(n));
    } else {
      SumZero(row, Pow2(n));
    }
  }

  // ---- all shuffles ----

  /** The sum of a quantity over all shuffles of the positions up to i, each sequence of swaps once. */
  function AllShuffles(f: seq<nat> -> real, p: seq<nat>, i: nat): real
    requires i < |p|
    decreases i, 1
  {
    if i == 0 then f(p) else SumOfSwaps(f, p, i, i + 1)
  }

  function SumOfSwaps(f: seq<nat> -> real, p: seq<nat>, i: nat, k: nat): real
    requires 0 < i < |p| && k <= i + 1
    decreases i, 0, k
  {
    if k == 0 then 0.0 else SumOfSwaps(f, p, i, k - 1) + AllShuffles(f, Swap(p, i, k - 1), i - 1)
  }

  function ValueIn(v: nat -> real, pl: nat): seq<nat> -> real {
    (q: seq<nat>) => OrderPhi(v, q, pl)
  }

  lemma {:induction false} SwapsAre(f: seq<nat> -> real, p: seq<nat>, i: nat, k: nat, h: nat -> real)
    requires 0 < i < |p| && k <= i + 1
    requires forall j: nat :: j < k ==> AllShuffles(f, Swap(p, i, j), i - 1) == h(j)
    ensures SumOfSwaps(f, p, i, k) == Sum(h, k)
  {
    hide AllShuffles;
    if k > 0 {
      SwapsAre(f, p, i, k - 1, h);
    }
  }

  function Always(c: real): seq<nat> -> real {
    (q: seq<nat>) => c
  }

  /** There are as many of them as orders of the positions. */
  lemma {:induction false} ShufflesCount(p: seq<nat>, i: nat)
    requires i < |p|
    ensures AllShuffles(Always(1.0), p, i) == Factorial(i + 1)
    decreases i
  {
    hide Factorial;
    FactorialStep(i + 1);
    FactorialOne();
    if i > 0 {
      var h := Constant(Factorial(i));
      forall j: nat | j < i + 1 ensures AllShuffles(Always(1.0), Swap(p, i, j), i - 1) == h(j) {
        ShufflesCount(Swap(p, i, j), i - 1);
      }
      SwapsAre(Always(1.0), p, i, i + 1, h);
      SumConstant(Factorial(i), h, i + 1);
    }
  }

  lemma FactorialOne()
    ensures Factorial(0) == 1.0 && Factorial(1) == 1.0
  {
  }

  /** A swap among the first arrivals does not change who they are. */
  lemma SwapArrived(p: seq<nat>, n: nat, i: nat, j: nat, t: nat)
    requires IsOrder(p, n) && j <= i < t <= n
    ensures IsOrder(Swap(p, i, j), n) && Arrived(Swap(p, i, j), t) == Arrived(p, t)
  {
    SwapKeepsOrder(p, n, i, j);
    hide Bit, Pow2, Arrived, IsOrder;
    var q := Swap(p, i, j);
    forall k: nat | k < n ensures Bit(Arrived(q, t), k) <==> Bit(Arrived(p, t), k) {
      ArrivedBits(p, n, t, k);
      ArrivedBits(q, n, t, k);
      SamePrefix(p, i, j, t, k);
    }
    ArrivedBits(p, n, t, 0);
    ArrivedBits(q, n, t, 0);
    SameBits(Arrived(q, t), Arrived(p, t), n);
  }

  lemma SamePrefix(p: seq<nat>, i: nat, j: nat, t: nat, k: nat)
    requires j <= i < t <= |p|
    ensures (exists s :: 0 <= s < t && Swap(p, i, j)[s] == k) <==> (exists s :: 0 <= s < t && p[s] == k)
  {
    var q := Swap(p, i, j);
    if s :| 0 <= s < t && q[s] == k {
      assert p[if s == i then j else if s == j then i else s] == k;
    }
    if s :| 0 <= s < t && p[s] == k {
      assert q[if s == i then j else if s == j then i else s] == k;
    }
  }

  /** Who stands after the shuffled positions gets the same in every one of the shuffles. */
  lemma {:induction false} LateStays(v: nat -> real, pl: nat, p: seq<nat>, n: nat, i: nat)
    requires |p| == n && IsOrder(p, n) && i < n && pl < n && !Bit(Arrived(p, i + 1), pl)
    ensures AllShuffles(ValueIn(v, pl), p, i) == Factorial(i + 1) * OrderPhi(v, p, pl)
    decreases i
  {
    hide Bit, Pow2, Arrived, Factorial, OrderPhi, IsOrder, Swap, Sum;
    FactorialStep(i + 1);
    FactorialOne();
    if i > 0 {
      var c := Factorial(i) * OrderPhi(v, p, pl);
      forall j: nat | j < i + 1 ensures AllShuffles(ValueIn(v, pl), Swap(p, i, j), i - 1) == Constant(c)(j) {
        LateAfterSwap(v, pl, p, n, i, j);
        LateStays(v, pl, Swap(p, i, j), n, i - 1);
      }
      SwapsAre(ValueIn(v, pl), p, i, i + 1, Constant(c));
      SumConstant(c, Constant(c), i + 1);
      Regroup((i + 1) as real, Factorial(i), OrderPhi(v, p, pl));
    }
  }

  lemma LateAfterSwap(v: nat -> real, pl: nat, p: seq<nat>, n: nat, i: nat, j: nat)
    requires IsOrder(p, n) && 0 < i < n && j <= i && pl < n && !Bit(Arrived(p, i + 1), pl)
    ensures var q := Swap(p, i, j);
      IsOrder(q, n) && OrderPhi(v, q, pl) == OrderPhi(v, p, pl) && !Bit(Arrived(q, i), pl)
  {
    hide Bit, Pow2, Arrived, OrderPhi;
    var q := Swap(p, i, j);
    var t := EveryPlayerArrives(p, n, pl);
    ArrivedBits(p, n, i + 1, pl);
    assert t > i;
    assert q[t] == pl;
    SwapArrived(p, n, i, j, t);
    SwapArrived(p, n, i, j, t + 1);
    SwapArrived(p, n, i, j, i + 1);
    OrderPhiAt(v, p, n, t);
    OrderPhiAt(v, q, n, t);
    ArrivedBits(q, n, i, pl);
    ArrivedBits(q, n, i + 1, pl);
  }

  /** What the shuffles with p[j] last among the first come to, by who that is. */
  ghost function LastIs(v: nat -> real, pl: nat, n: nat, m: nat, i: nat): nat -> real {
    (x: nat) =>
      if !Bit(m, x) then 0.0
      else if x == pl then Factorial(i) * Marginal(v, pl, Less(m, pl))
      else Worth(v, pl, n, Less(m, x))
  }

  ghost function AtPosition(h: nat -> real, p: seq<nat>): nat -> real {
    (j: nat) => if j < |p| then h(p[j]) else 0.0
  }

  ghost function IfArrived(h: nat -> real, m: nat): nat -> real {
    (x: nat) => if Bit(m, x) then h(x) else 0.0
  }

  /** Summing over positions is summing over who stands there. */
  lemma {:induction false} SumByArrivals(h: nat -> real, p: seq<nat>, n: nat, t: nat)
    requires IsOrder(p, n) && t <= n
    ensures Sum(AtPosition(h, p), t) == Sum(IfArrived(h, Arrived(p, t)), n)
  {
    hide Bit, Pow2, Arrived;
    if t == 0 {
      NobodyArrived(h, p, n);
    } else {
      SumByArrivals(h, p, n, t - 1);
      var x, before, after := p[t - 1], Arrived(p, t - 1), Arrived(p, t);
      NextArrival(p, n, t - 1);
      forall k: nat | k < n ensures IfArrived(h, after)(k) == IfArrived(h, before)(k) + OnlyAt(x, h(x))(k) {
        BitsAfterAdding(before, x, k);
      }
      SumPlus(IfArrived(h, before), OnlyAt(x, h(x)), IfArrived(h, after), n);
      SumSingle(OnlyAt(x, h(x)), x, n);
    }
  }

  lemma NobodyArrived(h: nat -> real, p: seq<nat>, n: nat)
    ensures Arrived(p, 0) == 0 && Sum(IfArrived(h, 0), n) == 0.0
  {
    hide Bit;
    forall k: nat ensures IfArrived(h, 0)(k) == 0.0 {
      EmptyMask(k);
    }
    SumZero(IfArrived(h, 0), n);
  }

  lemma {:induction false} OnesOfArrived(p: seq<nat>, n: nat, t: nat)
    requires IsOrder(p, n) && t <= n
    ensures Ones(Arrived(p, t)) == t
  {
    hide Bit, Pow2, Ones;
    if t == 0 {
      assert Ones(0) == 0 by {
        NoOnes();
      }
    } else {
      OnesOfArrived(p, n, t - 1);
      NextArrival(p, n, t - 1);
      OnesAfterAdding(Arrived(p, t - 1), p[t - 1]);
    }
  }

  lemma NoOnes()
    ensures Ones(0) == 0
  {
  }

  /** Swapped to the end of the first arrivals, a player leaves the rest of them before it. */
  lemma ArrivedBefore(p: seq<nat>, n: nat, i: nat, j: nat)
    requires IsOrder(p, n) && j <= i < n
    ensures var q, m := Swap(p, i, j), Arrived(p, i + 1);
      IsOrder(q, n) && m < Pow2(n) && Bit(m, p[j]) && Arrived(q, i) == Less(m, p[j]) && Arrived(q, i + 1) == m
  {
    hide Bit, Pow2, Arrived, Less;
    var q, m := Swap(p, i, j), Arrived(p, i + 1);
    SwapArrived(p, n, i, j, i + 1);
    ArrivedBits(p, n, i + 1, p[j]);
    NextArrival(q, n, i);
    assert q[i] == p[j];
    LessIs(m, p[j]);
  }

  /** All shuffles of the first positions, for a player among them: what it gains over all orders
      in which those there can arrive. */
  lemma {:induction false} EarlySums(v: nat -> real, pl: nat, p: seq<nat>, n: nat, i: nat)
    requires |p| == n && IsOrder(p, n) && i < n && pl < n && Bit(Arrived(p, i + 1), pl)
    ensures AllShuffles(ValueIn(v, pl), p, i) == Worth(v, pl, n, Arrived(p, i + 1))
    decreases i
  {
    hide Bit, Pow2, Arrived, Factorial, OrderPhi, Less, Ones, Worth, Marginal, Sum, IsOrder, Swap, LastIs, AtPosition;
    var m := Arrived(p, i + 1);
    var h := LastIs(v, pl, n, m, i);
    WorthByLast(v, pl, p, n, i);
    if i > 0 {
      forall j: nat | j < i + 1 ensures AllShuffles(ValueIn(v, pl), Swap(p, i, j), i - 1) == AtPosition(h, p)(j) {
        ArrivedBefore(p, n, i, j);
        if p[j] != pl {
          LessIs(m, p[j]);
          EarlySums(v, pl, Swap(p, i, j), n, i - 1);
        } else {
          EarlyStep(v, pl, p, n, i, j);
        }
        LastIsAt(v, pl, n, m, i, p, j);
      }
      SwapsAre(ValueIn(v, pl), p, i, i + 1, AtPosition(h, p));
    } else {
      EarlyStep(v, pl, p, n, 0, 0);
      LastIsAt(v, pl, n, m, 0, p, 0);
      OneTerm(AtPosition(h, p));
    }
  }

  lemma LastIsAt(v: nat -> real, pl: nat, n: nat, m: nat, i: nat, p: seq<nat>, j: nat)
    requires j < |p| && Bit(m, p[j])
    ensures AtPosition(LastIs(v, pl, n, m, i), p)(j)
         == if p[j] == pl then Factorial(i) * Marginal(v, pl, Less(m, p[j])) else Worth(v, pl, n, Less(m, p[j]))
  {
    hide Bit, Less, Factorial, Marginal, Worth;
  }

  lemma WorthByLast(v: nat -> real, pl: nat, p: seq<nat>, n: nat, i: nat)
    requires |p| == n && IsOrder(p, n) && i < n && pl < n && Bit(Arrived(p, i + 1), pl)
    ensures var m := Arrived(p, i + 1);
      && Worth(v, pl, n, m) == Sum(AtPosition(LastIs(v, pl, n, m, i), p), i + 1)
      && forall j: nat :: j < i + 1 ==> Bit(m, p[j])
  {
    hide Bit, Pow2, Arrived, Factorial, Less, Ones, Worth, Marginal, Sum, LastIs, IsOrder;
    var m := Arrived(p, i + 1);
    ArrivedBits(p, n, i + 1, pl);
    OnesOfArrived(p, n, i + 1);
    WorthSplits(v, pl, n, m);
    LastOfAll(v, pl, n, m, i);
    SumByArrivals(LastIs(v, pl, n, m, i), p, n, i + 1);
    forall j: nat | j < i + 1 ensures Bit(m, p[j]) {
      ArrivedBits(p, n, i + 1, p[j]);
    }
  }

  lemma OneTerm(f: nat -> real)
    ensures Sum(f, 1) == f(0)
  {
    assert Sum(f, 0) == 0.0;
  }

  lemma EarlyStep(v: nat -> real, pl: nat, p: seq<nat>, n: nat, i: nat, j: nat)
    requires |p| == n && IsOrder(p, n) && j <= i < n && pl < n && Bit(Arrived(p, i + 1), pl)
    ensures i == 0 ==> p[j] == pl && OrderPhi(v, p, pl) == Factorial(0) * Marginal(v, pl, Less(Arrived(p, i + 1), pl))
    ensures i > 0 && p[j] == pl ==>
      AllShuffles(ValueIn(v, pl), Swap(p, i, j), i - 1) == Factorial(i) * Marginal(v, pl, Less(Arrived(p, i + 1), pl))
  {
    hide Bit, Pow2, Arrived, Factorial, OrderPhi, Less, AllShuffles, IsOrder;
    var q, m := Swap(p, i, j), Arrived(p, i + 1);
    ArrivedBits(p, n, i + 1, pl);
    FactorialOne();
    if i == 0 {
      assert p[0] == pl;
    }
    if p[j] == pl {
      GainsLast(v, pl, p, n, i, j);
      if i > 0 {
        LateStays(v, pl, q, n, i - 1);
      } else {
        assert q == p;
      }
    }
  }

  lemma GainsLast(v: nat -> real, pl: nat, p: seq<nat>, n: nat, i: nat, j: nat)
    requires |p| == n && IsOrder(p, n) && j <= i < n && pl == p[j] && Bit(Arrived(p, i + 1), pl)
    ensures var q, m := Swap(p, i, j), Arrived(p, i + 1);
      IsOrder(q, n) && OrderPhi(v, q, pl) == Marginal(v, pl, Less(m, pl)) && !Bit(Arrived(q, i), pl)
  {
    hide Bit, Pow2, Arrived, OrderPhi, Less;
    var q, m := Swap(p, i, j), Arrived(p, i + 1);
    ArrivedBefore(p, n, i, j);
    LessIs(m, pl);
    assert q[i] == pl;
    OrderPhiAt(v, q, n, i);
  }

  /** The player itself last, or one of the others. */
  lemma LastOfAll(v: nat -> real, pl: nat, n: nat, m: nat, i: nat)
    requires pl < n && Bit(m, pl)
    ensures Sum(IfArrived(LastIs(v, pl, n, m, i), m), n)
         == Sum(LastOther(v, pl, n, m), n) + Factorial(i) * Marginal(v, pl, Less(m, pl))
  {
    hide Bit, Less, Factorial, Marginal, Worth, Sum;
    var own := OnlyAt(pl, Factorial(i) * Marginal(v, pl, Less(m, pl)));
    SumPlus(LastOther(v, pl, n, m), own, IfArrived(LastIs(v, pl, n, m, i), m), n);
    SumSingle(own, pl, n);
  }

  // ---- unbiased ----

  lemma WorthOfAll(v: nat -> real, pl: nat, n: nat)
    requires pl < n
    ensures Worth(v, pl, n, Pow2(n) - 1) == Factorial(n) * ExactPhi(v, n, pl)
  {
    hide Bit, Pow2, Ones, Marginal, Factorial, Share, Sum;
    var m, terms := Pow2(n) - 1, Terms(Weighted(v, Shares(n)), pl);
    OnesBounds(m, n);
    forall s: nat | s < Pow2(n) ensures Pieces(v, pl, n, m)(s) == Factorial(n) * terms(s) {
      FullPiece(v, pl, n, s);
    }
    SumScaled(Factorial(n), terms, Pieces(v, pl, n, m), Pow2(n));
  }

  lemma FullPiece(v: nat -> real, pl: nat, n: nat, s: nat)
    requires pl < n && s < Pow2(n)
    ensures Piece(v, pl, n, Pow2(n) - 1, s) == Factorial(n) * Term(Weighted(v, Shares(n)), pl, s)
  {
    hide Bit, Pow2, Ones, Marginal, Factorial, Share;
    var m := Pow2(n) - 1;
    OnesBounds(m, n);
    forall i: nat | i < n ensures Bit(m, i) {
      FullHasEveryBit(n, i);
    }
    TermIsShareOfMarginal(v, n, pl, s);
    if !Bit(s, pl) {
      OnesOfPartial(s, pl, n);
      ShareIsArrangements(n, Ones(s));
      Regroup(Factorial(n), Share(n, Ones(s)), Marginal(v, pl, s));
    }
  }

  lemma ShareIsArrangements(n: nat, k: nat)
    requires k < n
    ensures Factorial(n) * Share(n, k) == Arrangements(k, n - k - 1)
  {
    hide Factorial, Share;
    ShareTimesFactorial(n, k);
  }

  /** Sampling is unbiased: whatever order a round starts from, summed over the n! equally likely
      shuffles the player's gains are n! times its Shapley value. */
  lemma SamplingIsUnbiased(v: nat -> real, pl: nat, p: seq<nat>, n: nat)
    requires IsOrder(p, n) && pl < n
    ensures AllShuffles(ValueIn(v, pl), p, n - 1) == Factorial(n) * ExactPhi(v, n, pl)
    ensures AllShuffles(Always(1.0), p, n - 1) == Factorial(n)
  {
    hide Bit, Pow2, Arrived, Factorial, OrderPhi, Worth, ExactPhi, AllShuffles;
    AllArrived(p, n);
    FullHasEveryBit(n, pl);
    EarlySums(v, pl, p, n, n - 1);
    WorthOfAll(v, pl, n);
    ShufflesCount(p, n - 1);
  }

  /** So is every round the program plays: it shuffles the order the round before left, the first
      from the players as they are listed, and hands out what the shuffled order gives. */
  lemma RoundsAreUnbiased(v: nat -> real, pl: nat, n: nat, draw: (nat, nat) -> nat, k: nat)
    requires pl < n
    ensures var p := OrderAfter(n, draw, k);
      && IsOrder(p, n) && (k == 0 ==> forall i :: 0 <= i < n ==> p[i] == i)
      && RoundPhi(v, n, draw, pl, k) == ValueIn(v, pl)(ShuffleDown(p, RoundDraws(draw, k), n - 1))
      && AllShuffles(ValueIn(v, pl), p, n - 1) == Factorial(n) * ExactPhi(v, n, pl)
  {
    hide OrderPhi, ExactPhi, AllShuffles, Factorial;
    OrderAfterIsOrder(n, draw, k);
    SamplingIsUnbiased(v, pl, OrderAfter(n, draw, k), n);
  }
}
