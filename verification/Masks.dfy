/** Subsets of 0..n as bit masks, and sums over all of them. */
module Masks {
  import opened Sums

  function Pow2(n: nat): (p: nat)
    ensures p >= 1
  {
    if n == 0 then 1 else 2 * Pow2(n - 1)
  }

  /** `mask & (1 << i) != 0`. */
  predicate Bit(mask: nat, i: nat) {
    if i == 0 then mask % 2 == 1 else Bit(mask / 2, i - 1)
  }

  /** `mask | (1 << i)`. */
  function WithBit(mask: nat, i: nat): nat {
    if Bit(mask, i) then mask else mask + Pow2(i)
  }

  /** `bits.OnesCount64`. */
  function Ones(mask: nat): nat {
    if mask == 0 then 0 else mask % 2 + Ones(mask / 2)
  }

  lemma {:induction false} OnesAfterAdding(mask: nat, i: nat)
    requires !Bit(mask, i)
    ensures Ones(mask + Pow2(i)) == Ones(mask) + 1
    decreases i
  {
    if i == 0 {
      assert (mask + 1) / 2 == mask / 2;
    } else {
      assert (mask + Pow2(i)) / 2 == mask / 2 + Pow2(i - 1);
      assert (mask + Pow2(i)) % 2 == mask % 2;
      OnesAfterAdding(mask / 2, i - 1);
    }
  }

  lemma Pow2Step(n: nat)
    ensures Pow2(0) == 1
    ensures Pow2(n + 1) == 2 * Pow2(n)
  {
  }

  lemma BitStep(mask: nat, i: nat)
    ensures Bit(mask, 0) <==> mask % 2 == 1
    ensures Bit(mask, i + 1) <==> Bit(mask / 2, i)
  {
  }

  lemma Doubled(m: nat, a: nat, b: nat)
    requires m / 2 + a < b
    ensures m + 2 * a < 2 * b
  {
  }

  lemma {:induction false} AddedInRange(mask: nat, i: nat, n: nat)
    requires !Bit(mask, i) && i < n && mask < Pow2(n)
    ensures mask + Pow2(i) < Pow2(n)
    decreases i
  {
    hide Pow2, Bit;
    Pow2Step(n - 1);
    if i == 0 {
      BitStep(mask, 0);
    } else {
      BitStep(mask, i - 1);
      Pow2Step(i - 1);
      AddedInRange(mask / 2, i - 1, n - 1);
      Doubled(mask, Pow2(i - 1), Pow2(n - 1));
    }
  }

  lemma {:induction false} BitsAfterAdding(mask: nat, i: nat, j: nat)
    requires !Bit(mask, i)
    ensures Bit(mask + Pow2(i), j) <==> j == i || Bit(mask, j)
  {
    if i == 0 {
      assert (mask + 1) / 2 == mask / 2;
    } else {
      assert (mask + Pow2(i)) / 2 == mask / 2 + Pow2(i - 1);
      assert (mask + Pow2(i)) % 2 == mask % 2;
      if j > 0 {
        BitsAfterAdding(mask / 2, i - 1, j - 1);
      }
    }
  }

  lemma {:induction false} OnesBounds(mask: nat, n: nat)
    requires mask < Pow2(n)
    ensures Ones(mask) <= n
    ensures Ones(mask) == 0 <==> mask == 0
    ensures Ones(mask) == n <==> mask == Pow2(n) - 1
  {
    if n > 0 {
      OnesBounds(mask / 2, n - 1);
    }
  }

  /** A mask is the set of its bits: with every bit below n set it is full. */
  lemma {:induction false} FullMask(mask: nat, n: nat)
    requires mask < Pow2(n)
    requires forall i: nat :: i < n ==> Bit(mask, i)
    ensures mask == Pow2(n) - 1
  {
    if n > 0 {
      assert Bit(mask, 0);
      forall i: nat | i < n - 1 ensures Bit(mask / 2, i) {
        assert Bit(mask, i + 1);
      }
      FullMask(mask / 2, n - 1);
    }
  }

  lemma {:induction false} MissingBit(mask: nat, n: nat)  returns (i: nat)
    requires mask < Pow2(n) - 1
    ensures i < n && !Bit(mask, i)
  {
    if mask % 2 == 0 {
      i := 0;
    } else {
      var j := MissingBit(mask / 2, n - 1);
      i := j + 1;
    }
  }

  lemma {:induction false} EmptyMask(i: nat)
    ensures !Bit(0, i)
  {
    if i > 0 {
      EmptyMask(i - 1);
    }
  }

  /** A sum over all subsets, gathered by what element i adds to each subset without it. */
  function GatheredAt(f: nat -> real, i: nat, m: nat): real {
    if Bit(m, i) then 0.0 else f(m) + f(m + Pow2(i))
  }

  function Gathered(f: nat -> real, i: nat): nat -> real {
    (m: nat) => GatheredAt(f, i, m)
  }

  function Halved(f: nat -> real): nat -> real {
    (k: nat) => f(2 * k) + f(2 * k + 1)
  }

  lemma LowBit(k: nat, i: nat)
    ensures !Bit(2 * k, 0) && Bit(2 * k + 1, 0)
    ensures i > 0 ==> Bit(2 * k, i) == Bit(k, i - 1) && Bit(2 * k + 1, i) == Bit(k, i - 1)
  {
    assert (2 * k) / 2 == k && (2 * k + 1) / 2 == k;
  }

  lemma GatheredHalves(f: nat -> real, i: nat, k: nat)
    ensures Halved(Gathered(f, i))(k) == if i == 0 then Halved(f)(k) else Gathered(Halved(f), i - 1)(k)
  {
    LowBit(k, i);
    assert Halved(Gathered(f, i))(k) == GatheredAt(f, i, 2 * k) + GatheredAt(f, i, 2 * k + 1);
    if i > 0 {
      var q := k + Pow2(i - 1);
      assert 2 * k + Pow2(i) == 2 * q && 2 * k + 1 + Pow2(i) == 2 * q + 1;
      assert Halved(f)(q) == f(2 * q) + f(2 * q + 1);
    }
  }

  /** The sum over all masks below 2^n, by halving. */
  function SumMasks(f: nat -> real, n: nat): real
    decreases n
  {
    if n == 0 then f(0) else SumMasks(Halved(f), n - 1)
  }

  lemma {:induction false} SumMasksIsSum(f: nat -> real, n: nat)
    ensures SumMasks(f, n) == Sum(f, Pow2(n))
    decreases n
  {
    if n == 0 {
      assert Sum(f, 1) == Sum(f, 0) + f(0);
    } else {
      hide Pow2, Sum;
      Pow2Step(n - 1);
      SumMasksIsSum(Halved(f), n - 1);
      SumPairs(f, Halved(f), Pow2(n - 1));
    }
  }

  lemma {:induction false} SumMasksCongruent(f: nat -> real, g: nat -> real, n: nat)
    requires forall m: nat :: f(m) == g(m)
    ensures SumMasks(f, n) == SumMasks(g, n)
    decreases n
  {
    if n > 0 {
      SumMasksCongruent(Halved(f), Halved(g), n - 1);
    }
  }

  lemma {:induction false} SumMasksGathered(f: nat -> real, i: nat, n: nat)
    requires i < n
    ensures SumMasks(f, n) == SumMasks(Gathered(f, i), n)
    decreases n
  {
    var g := Halved(Gathered(f, i));
    var h := if i == 0 then Halved(f) else Gathered(Halved(f), i - 1);
    forall k: nat ensures g(k) == h(k) {
      GatheredHalves(f, i, k);
    }
    SumMasksCongruent(g, h, n - 1);
    if i > 0 {
      SumMasksGathered(Halved(f), i - 1, n - 1);
    }
  }

  /** Every subset is either one without i or such a subset with i added. */
  lemma SplitOnBit(f: nat -> real, i: nat, n: nat)
    requires i < n
    ensures Sum(f, Pow2(n)) == Sum(Gathered(f, i), Pow2(n))
  {
    SumMasksGathered(f, i, n);
    SumMasksIsSum(f, n);
    SumMasksIsSum(Gathered(f, i), n);
  }

  function OnesBelow(mask: nat, n: nat): nat {
    if n == 0 then 0 else OnesBelow(mask, n - 1) + if Bit(mask, n - 1) then 1 else 0
  }

  lemma {:induction false} OnesBelowHalf(mask: nat, n: nat)
    ensures OnesBelow(mask, n + 1) == mask % 2 + OnesBelow(mask / 2, n)
  {
    if n > 0 {
      OnesBelowHalf(mask, n - 1);
    }
  }

  lemma {:induction false} OnesBelowIsOnes(mask: nat, n: nat)
    requires mask < Pow2(n)
    ensures OnesBelow(mask, n) == Ones(mask)
    decreases n
  {
    if n > 0 {
      OnesBelowIsOnes(mask / 2, n - 1);
      OnesBelowHalf(mask, n - 1);
    }
  }

  function Membership(mask: nat, a: real, b: real): nat -> real {
    (i: nat) => if Bit(mask, i) then a else b
  }

  /** a for each of o members, b for each of the n - o others. */
  function Weigh(o: int, n: int, a: real, b: real): real
    decreases n
  {
    if n <= 0 then 0.0
    else if o == n then a + Weigh(o - 1, n - 1, a, b)
    else b + Weigh(o, n - 1, a, b)
  }

  lemma {:induction false} WeighOneMore(o: int, n: int, a: real, b: real)
    requires 0 <= o <= n
    ensures Weigh(o + 1, n + 1, a, b) == Weigh(o, n, a, b) + a
    ensures Weigh(o, n + 1, a, b) == Weigh(o, n, a, b) + b
    decreases n
  {
    if n > o {
      WeighOneMore(o, n - 1, a, b);
    }
  }

  lemma OneMoreTimes(k: int, x: real)
    ensures (k + 1) as real * x == k as real * x + x
  {
    assert (k + 1) as real == k as real + 1.0;
  }

  lemma {:induction false} WeighIsProduct(o: int, n: int, a: real, b: real)
    requires 0 <= o <= n
    ensures Weigh(o, n, a, b) == o as real * a + (n - o) as real * b
    decreases n
  {
    if n == 0 {
    } else if o == n {
      WeighIsProduct(o - 1, n - 1, a, b);
      OneMoreTimes(o - 1, a);
    } else {
      WeighIsProduct(o, n - 1, a, b);
      OneMoreTimes(n - 1 - o, b);
    }
  }

  lemma {:induction false} SumByMembershipBelow(mask: nat, n: nat, a: real, b: real)
    ensures OnesBelow(mask, n) <= n
    ensures Sum(Membership(mask, a, b), n) == Weigh(OnesBelow(mask, n), n, a, b)
  {
    if n > 0 {
      SumByMembershipBelow(mask, n - 1, a, b);
      var o := OnesBelow(mask, n - 1);
      WeighOneMore(o, n - 1, a, b);
      if Bit(mask, n - 1) {
        assert OnesBelow(mask, n) == o + 1;
      } else {
        assert OnesBelow(mask, n) == o;
      }
    }
  }

  /** Summing a over the members and b over the non-members counts both. */
  lemma SumByMembership(mask: nat, n: nat, a: real, b: real)
    requires mask < Pow2(n)
    ensures Ones(mask) <= n
    ensures Sum(Membership(mask, a, b), n) == Weigh(Ones(mask), n, a, b)
  {
    OnesBelowIsOnes(mask, n);
    SumByMembershipBelow(mask, n, a, b);
  }
}
