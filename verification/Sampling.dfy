/** Sampled Shapley values: marginal contributions along shuffled orders of arrival. */
module Sampling {
  import opened Sums
  import opened Masks
  import opened Shapley

  // ---- Fisher-Yates, as `rand.Shuffle` runs it ----

  function Swap(p: seq<nat>, i: nat, j: nat): (r: seq<nat>)
    requires i < |p| && j < |p|
    ensures |r| == |p|
    ensures forall k :: 0 <= k < |p| ==> r[k] == if k == i then p[j] else if k == j then p[i] else p[k]
  {
    p[i := p[j]][j := p[i]]
  }

  /** `r.Int31n(i + 1)`. */
  function Target(draw: nat -> nat, i: nat): (j: nat)
    ensures j <= i
  {
    draw(i) % (i + 1)
  }

  /** Positions i, i-1, ..., 1 each swapped with a drawn position not after them. */
  function ShuffleDown(p: seq<nat>, draw: nat -> nat, i: nat): (r: seq<nat>)
    requires i < |p| || i == 0
    ensures |r| == |p|
    decreases i
  {
    if i == 0 then p else ShuffleDown(Swap(p, i, Target(draw, i)), draw, i - 1)
  }

  function Shuffled(p: seq<nat>, draw: nat -> nat): (r: seq<nat>)
    ensures |r| == |p|
  {
    ShuffleDown(p, draw, if p == [] then 0 else |p| - 1)
  }

  method Shuffle(perm: array<nat>, draw: nat -> nat)
    modifies perm
    ensures perm[..] == Shuffled(old(perm[..]), draw)
  {
    hide Target;
    var i: nat := if perm.Length == 0 then 0 else perm.Length - 1;
    while i > 0
      invariant i < perm.Length || i == 0
      invariant ShuffleDown(perm[..], draw, i) == Shuffled(old(perm[..]), draw)
    {
      ghost var before := perm[..];
      var j := Target(draw, i);
      perm[i], perm[j] := perm[j], perm[i];
      assert perm[..] == Swap(before, i, j);
      i := i - 1;
    }
  }

  /** Every number below n exactly once. */
  ghost predicate IsOrder(p: seq<nat>, n: nat) {
    && |p| == n
    && (forall t :: 0 <= t < n ==> p[t] < n)
    && (forall s, t :: 0 <= s < t < n ==> p[s] != p[t])
  }

  lemma {:induction false} ShuffleDownKeepsOrder(p: seq<nat>, draw: nat -> nat, i: nat, n: nat)
    requires IsOrder(p, n) && (i < n || i == 0)
    ensures IsOrder(ShuffleDown(p, draw, i), n)
    decreases i
  {
    if i > 0 {
      ShuffleDownKeepsOrder(Swap(p, i, Target(draw, i)), draw, i - 1, n);
    }
  }

  lemma {:induction false} EveryPlayerArrives(p: seq<nat>, n: nat, i: nat) returns (t: nat)
    requires IsOrder(p, n) && i < n
    ensures t < n && p[t] == i
    decreases n
  {
    if p[n - 1] == i {
      t := n - 1;
    } else if i == n - 1 {
      // rename: put p[n-1] where i stands, and look for it in a shorter order
      if k: nat :| k < n - 1 && p[k] == n - 1 {
        t := k;
      } else {
        assert IsOrder(p[..n - 1], n - 1) by {
          forall k | 0 <= k < n - 1 ensures p[k] < n - 1 {
            assert p[k] != n - 1;
          }
        }
        var j := EveryPlayerArrives(p[..n - 1], n - 1, p[n - 1]);
      }
    } else {
      var q := p[..n - 1];
      if k: nat :| k < n - 1 && p[k] == n - 1 {
        q := q[k := p[n - 1]];
      }
      t := EveryPlayerArrives(q, n - 1, i);
    }
  }

  // ---- marginal contributions along one order ----

  /** The coalition of the first t arrivals. */
  function Arrived(p: seq<nat>, t: nat): nat
    requires t <= |p|
  {
    if t == 0 then 0 else WithBit(Arrived(p, t - 1), p[t - 1])
  }

  lemma {:induction false} ArrivedBits(p: seq<nat>, n: nat, t: nat, i: nat)
    requires IsOrder(p, n) && t <= n
    ensures Arrived(p, t) < Pow2(n)
    ensures Bit(Arrived(p, t), i) <==> exists s :: 0 <= s < t && p[s] == i
  {
    hide Bit, Pow2;
    if t == 0 {
      EmptyMask(i);
    } else {
      ArrivedBits(p, n, t - 1, i);
      ArrivedBits(p, n, t - 1, p[t - 1]);
      BitsAfterAdding(Arrived(p, t - 1), p[t - 1], i);
      AddedInRange(Arrived(p, t - 1), p[t - 1], n);
    }
  }

  lemma NextArrival(p: seq<nat>, n: nat, t: nat)
    requires IsOrder(p, n) && t < n
    ensures !Bit(Arrived(p, t), p[t]) && Arrived(p, t) < Pow2(n)
    ensures Arrived(p, t + 1) == Arrived(p, t) + Pow2(p[t])
  {
    hide Bit, Pow2;
    ArrivedBits(p, n, t, p[t]);
  }

  lemma AllArrived(p: seq<nat>, n: nat)
    requires IsOrder(p, n)
    ensures Arrived(p, n) == Pow2(n) - 1
  {
    hide Bit, Pow2;
    ArrivedBits(p, n, n, 0);
    forall i: nat | i < n ensures Bit(Arrived(p, n), i) {
      ArrivedBits(p, n, n, i);
      var t := EveryPlayerArrives(p, n, i);
    }
    FullMask(Arrived(p, n), n);
  }

  /** What player i gains at arrival t: its marginal contribution if it is the one arriving. */
  function Gain(v: nat -> real, p: seq<nat>, i: nat, t: nat): real {
    if t < |p| && p[t] == i then v(Arrived(p, t + 1)) - v(Arrived(p, t)) else 0.0
  }

  function Gains(v: nat -> real, p: seq<nat>): (nat, nat) -> real {
    (i: nat, t: nat) => Gain(v, p, i, t)
  }

  function OrderPhi(v: nat -> real, p: seq<nat>, i: nat): real {
    Sum(Row(Gains(v, p), i), |p|)
  }

  function OrderPhis(v: nat -> real, p: seq<nat>): nat -> real {
    (i: nat) => OrderPhi(v, p, i)
  }

  lemma OrderPhiIsMarginal(v: nat -> real, p: seq<nat>, n: nat, i: nat) returns (m: nat)
    requires IsOrder(p, n) && i < n
    ensures m < Pow2(n) && !Bit(m, i) && OrderPhi(v, p, i) == Marginal(v, i, m)
  {
    hide Bit, Pow2;
    var t := EveryPlayerArrives(p, n, i);
    NextArrival(p, n, t);
    m := Arrived(p, t);
    SumSingle(Row(Gains(v, p), i), t, n);
  }

  lemma {:induction false} TelescopedGains(v: nat -> real, p: seq<nat>, n: nat, t: nat)
    requires IsOrder(p, n) && t <= n
    ensures Sum(ColumnSums(Gains(v, p), n), t) == v(Arrived(p, t)) - v(0)
  {
    hide WithBit, Gain;
    if t > 0 {
      TelescopedGains(v, p, n, t - 1);
      ArrivalGain(v, p, n, t - 1);
    }
  }

  lemma ArrivalGain(v: nat -> real, p: seq<nat>, n: nat, t: nat)
    requires IsOrder(p, n) && t < n
    ensures Sum(Column(Gains(v, p), t), n) == v(Arrived(p, t + 1)) - v(Arrived(p, t))
  {
    hide Arrived;
    SumSingle(Column(Gains(v, p), t), p[t], n);
  }

  /** Along any order of arrival the gains telescope to v(everyone) - v(no one). */
  lemma OrderEfficiency(v: nat -> real, p: seq<nat>, n: nat)
    requires IsOrder(p, n)
    ensures Sum(OrderPhis(v, p), n) == v(Pow2(n) - 1) - v(0)
  {
    hide Arrived, Pow2, Gain;
    var g := Gains(v, p);
    forall i: nat | i < n ensures OrderPhis(v, p)(i) == RowSums(g, n)(i) {
    }
    SumCongruent(OrderPhis(v, p), RowSums(g, n), n);
    SumSwap(g, n, n);
    TelescopedGains(v, p, n, n);
    AllArrived(p, n);
  }

  // ---- averaging over rounds of shuffling ----

  function Identity(n: nat): (p: seq<nat>)
    ensures IsOrder(p, n)
  {
    seq(n, i => i)
  }

  function RoundDraws(draw: (nat, nat) -> nat, k: nat): nat -> nat {
    (i: nat) => draw(k, i)
  }

  /** The order after k shuffles, each starting from the order before it. */
  function OrderAfter(n: nat, draw: (nat, nat) -> nat, k: nat): (p: seq<nat>)
    ensures |p| == n
    decreases k
  {
    if k == 0 then Identity(n) else Shuffled(OrderAfter(n, draw, k - 1), RoundDraws(draw, k - 1))
  }

  lemma {:induction false} OrderAfterIsOrder(n: nat, draw: (nat, nat) -> nat, k: nat)
    ensures IsOrder(OrderAfter(n, draw, k), n)
    decreases k
  {
    if k > 0 {
      OrderAfterIsOrder(n, draw, k - 1);
      ShuffleDownKeepsOrder(OrderAfter(n, draw, k - 1), RoundDraws(draw, k - 1), if n == 0 then 0 else n - 1, n);
    }
  }

  function RoundPhi(v: nat -> real, n: nat, draw: (nat, nat) -> nat, i: nat, k: nat): real {
    OrderPhi(v, OrderAfter(n, draw, k + 1), i)
  }

  function Rounds(v: nat -> real, n: nat, draw: (nat, nat) -> nat): (nat, nat) -> real {
    (i: nat, k: nat) => RoundPhi(v, n, draw, i, k)
  }

  /** `phi *= 1 / rounds`. */
  function Mean(total: real, rounds: nat): real
    requires rounds > 0
  {
    total * (1.0 / rounds as real)
  }

  /** Player i's mean marginal contribution over `rounds` shuffles. */
  function SampledPhi(v: nat -> real, n: nat, draw: (nat, nat) -> nat, rounds: nat, i: nat): real
    requires rounds > 0
  {
    Mean(Sum(Row(Rounds(v, n, draw), i), rounds), rounds)
  }

  function SampledPhis(v: nat -> real, n: nat, draw: (nat, nat) -> nat, rounds: nat): nat -> real
    requires rounds > 0
  {
    (i: nat) => SampledPhi(v, n, draw, rounds, i)
  }

  lemma {:induction false} SumConstant(c: real, f: nat -> real, n: nat)
    requires forall i: nat :: i < n ==> f(i) == c
    ensures Sum(f, n) == n as real * c
  {
    if n > 0 {
      SumConstant(c, f, n - 1);
      OneMoreTimes(n - 1, c);
    }
  }

  lemma MeanOfConstant(n: nat, c: real)
    requires n > 0
    ensures Mean(n as real * c, n) == c
  {
    var x := n as real;
    assert x * (1.0 / x) == 1.0;
    assert (x * c) * (1.0 / x) == c * (x * (1.0 / x));
  }

  lemma MeanMonotone(x: real, y: real, n: nat)
    requires n > 0 && x <= y
    ensures Mean(x, n) <= Mean(y, n)
  {
    var c := 1.0 / n as real;
    assert c >= 0.0;
    assert x * c <= y * c;
  }

  function Means(f: nat -> real, rounds: nat): nat -> real
    requires rounds > 0
  {
    (i: nat) => Mean(f(i), rounds)
  }

  lemma SumOfMeans(f: nat -> real, rounds: nat, n: nat)
    requires rounds > 0
    ensures Sum(Means(f, rounds), n) == Mean(Sum(f, n), rounds)
  {
    var scale := 1.0 / rounds as real;
    forall i: nat ensures Means(f, rounds)(i) == scale * f(i) {
    }
    SumScaled(scale, f, Means(f, rounds), n);
  }

  lemma RoundEfficiency(v: nat -> real, n: nat, draw: (nat, nat) -> nat, k: nat)
    ensures Sum(Column(Rounds(v, n, draw), k), n) == v(Pow2(n) - 1) - v(0)
  {
    hide Pow2, OrderPhi;
    var p := OrderAfter(n, draw, k + 1);
    OrderAfterIsOrder(n, draw, k + 1);
    OrderEfficiency(v, p, n);
    SumCongruent(Column(Rounds(v, n, draw), k), OrderPhis(v, p), n);
  }

  /** Sampling is efficient too, exactly, whatever the draws. */
  lemma SampledEfficiency(v: nat -> real, n: nat, draw: (nat, nat) -> nat, rounds: nat)
    requires rounds > 0
    ensures Sum(SampledPhis(v, n, draw, rounds), n) == v(Pow2(n) - 1) - v(0)
  {
    hide Pow2, RoundPhi, Mean;
    var f, total := Rounds(v, n, draw), v(Pow2(n) - 1) - v(0);
    SumCongruent(SampledPhis(v, n, draw, rounds), Means(RowSums(f, rounds), rounds), n);
    SumOfMeans(RowSums(f, rounds), rounds, n);
    SumSwap(f, n, rounds);
    forall k: nat | k < rounds ensures ColumnSums(f, n)(k) == total {
      RoundEfficiency(v, n, draw, k);
    }
    SumConstant(total, ColumnSums(f, n), rounds);
    MeanOfConstant(rounds, total);
  }

  lemma RoundWithinMarginals(v: nat -> real, n: nat, draw: (nat, nat) -> nat, k: nat, i: nat, low: real, high: real)
    requires i < n
    requires forall m: nat :: m < Pow2(n) && !Bit(m, i) ==> low <= Marginal(v, i, m) <= high
    ensures low <= RoundPhi(v, n, draw, i, k) <= high
  {
    hide Pow2, Bit, Marginal, OrderPhi;
    OrderAfterIsOrder(n, draw, k + 1);
    var m := OrderPhiIsMarginal(v, OrderAfter(n, draw, k + 1), n, i);
  }

  lemma SampledWithinMarginals(v: nat -> real, n: nat, draw: (nat, nat) -> nat, rounds: nat, i: nat, low: real, high: real)
    requires i < n && rounds > 0
    requires forall m: nat :: m < Pow2(n) && !Bit(m, i) ==> low <= Marginal(v, i, m) <= high
    ensures low <= SampledPhi(v, n, draw, rounds, i) <= high
  {
    hide Pow2, Bit, Marginal, RoundPhi, Mean;
    var f := Row(Rounds(v, n, draw), i);
    forall k: nat | k < rounds ensures low <= f(k) <= high {
      RoundWithinMarginals(v, n, draw, k, i, low, high);
    }
    MeanWithin(f, rounds, low, high);
  }

  lemma SampledStrictlyWithin(v: nat -> real, n: nat, draw: (nat, nat) -> nat, rounds: nat, i: nat, low: real, high: real)
    requires i < n && rounds > 0
    requires forall m: nat :: m < Pow2(n) && !Bit(m, i) ==> low < Marginal(v, i, m) < high
    ensures low < SampledPhi(v, n, draw, rounds, i) < high
  {
    hide Pow2, Bit, Marginal, Mean, OrderPhi;
    var f := Row(Rounds(v, n, draw), i);
    forall k: nat | k < rounds ensures low < f(k) < high {
      OrderAfterIsOrder(n, draw, k + 1);
      var m := OrderPhiIsMarginal(v, OrderAfter(n, draw, k + 1), n, i);
    }
    MeanStrictlyWithin(f, rounds, low, high);
  }

  function Constant(c: real): nat -> real {
    (i: nat) => c
  }

  lemma MeanWithin(f: nat -> real, n: nat, low: real, high: real)
    requires n > 0
    requires forall k: nat :: k < n ==> low <= f(k) <= high
    ensures low <= Mean(Sum(f, n), n) <= high
  {
    hide Mean;
    SumMonotone(Constant(low), f, n);
    SumMonotone(f, Constant(high), n);
    SumConstant(low, Constant(low), n);
    SumConstant(high, Constant(high), n);
    MeanOfConstant(n, low);
    MeanOfConstant(n, high);
    MeanMonotone(n as real * low, Sum(f, n), n);
    MeanMonotone(Sum(f, n), n as real * high, n);
  }

  lemma MeanStrictlyMonotone(x: real, y: real, n: nat)
    requires n > 0 && x < y
    ensures Mean(x, n) < Mean(y, n)
  {
    var c := 1.0 / n as real;
    assert c > 0.0;
    assert x * c < y * c;
  }

  lemma MeanStrictlyWithin(f: nat -> real, n: nat, low: real, high: real)
    requires n > 0
    requires forall k: nat :: k < n ==> low < f(k) < high
    ensures low < Mean(Sum(f, n), n) < high
  {
    hide Mean;
    SumStrictlyMonotone(Constant(low), f, 0, n);
    SumStrictlyMonotone(f, Constant(high), 0, n);
    SumConstant(low, Constant(low), n);
    SumConstant(high, Constant(high), n);
    MeanOfConstant(n, low);
    MeanOfConstant(n, high);
    MeanStrictlyMonotone(n as real * low, Sum(f, n), n);
    MeanStrictlyMonotone(Sum(f, n), n as real * high, n);
  }
}
