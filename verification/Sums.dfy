/** Finite sums of reals. */
module Sums {

  function Sum(f: nat -> real, n: nat): real {
    if n == 0 then 0.0 else Sum(f, n - 1) + f(n - 1)
  }

  lemma {:induction false} SumCongruent(f: nat -> real, g: nat -> real, n: nat)
    requires forall i: nat :: i < n ==> f(i) == g(i)
    ensures Sum(f, n) == Sum(g, n)
  {
    if n > 0 {
      SumCongruent(f, g, n - 1);
    }
  }

  lemma {:induction false} SumPlus(f: nat -> real, g: nat -> real, h: nat -> real, n: nat)
    requires forall i: nat :: i < n ==> h(i) == f(i) + g(i)
    ensures Sum(h, n) == Sum(f, n) + Sum(g, n)
  {
    if n > 0 {
      SumPlus(f, g, h, n - 1);
    }
  }

  lemma {:induction false} SumScaled(c: real, f: nat -> real, h: nat -> real, n: nat)
    requires forall i: nat :: i < n ==> h(i) == c * f(i)
    ensures Sum(h, n) == c * Sum(f, n)
  {
    if n > 0 {
      SumScaled(c, f, h, n - 1);
    }
  }

  lemma {:induction false} SumMonotone(f: nat -> real, g: nat -> real, n: nat)
    requires forall i: nat :: i < n ==> f(i) <= g(i)
    ensures Sum(f, n) <= Sum(g, n)
  {
    if n > 0 {
      SumMonotone(f, g, n - 1);
    }
  }

  lemma {:induction false} SumZero(f: nat -> real, n: nat)
    requires forall i: nat :: i < n ==> f(i) == 0.0
    ensures Sum(f, n) == 0.0
  {
    if n > 0 {
      SumZero(f, n - 1);
    }
  }

  lemma SumStrictlyMonotone(f: nat -> real, g: nat -> real, k: nat, n: nat)
    requires k < n && f(k) < g(k)
    requires forall i: nat :: i < n ==> f(i) <= g(i)
    ensures Sum(f, n) < Sum(g, n)
  {
    if k == n - 1 {
      SumMonotone(f, g, n - 1);
    } else {
      SumStrictlyMonotone(f, g, k, n - 1);
    }
  }

  /** Only one term is not zero. */
  lemma {:induction false} SumSingle(f: nat -> real, k: nat, n: nat)
    requires k < n
    requires forall i: nat :: i < n && i != k ==> f(i) == 0.0
    ensures Sum(f, n) == f(k)
  {
    if k == n - 1 {
      SumZero(f, n - 1);
    } else {
      SumSingle(f, k, n - 1);
    }
  }

  function Row(f: (nat, nat) -> real, i: nat): nat -> real {
    (j: nat) => f(i, j)
  }

  function Column(f: (nat, nat) -> real, j: nat): nat -> real {
    (i: nat) => f(i, j)
  }

  function RowSums(f: (nat, nat) -> real, n: nat): nat -> real {
    (i: nat) => Sum(Row(f, i), n)
  }

  function ColumnSums(f: (nat, nat) -> real, m: nat): nat -> real {
    (j: nat) => Sum(Column(f, j), m)
  }

  /** Rows first or columns first. */
  lemma {:induction false} SumSwap(f: (nat, nat) -> real, m: nat, n: nat)
    ensures Sum(RowSums(f, n), m) == Sum(ColumnSums(f, m), n)
    decreases m
  {
    if m == 0 {
      SumZero(ColumnSums(f, 0), n);
    } else {
      SumSwap(f, m - 1, n);
      SumPlus(ColumnSums(f, m - 1), Row(f, m - 1), ColumnSums(f, m), n);
    }
  }

  /** Pairing the terms 2k and 2k+1. */
  lemma {:induction false} SumPairs(f: nat -> real, h: nat -> real, n: nat)
    requires forall k: nat :: k < n ==> h(k) == f(2 * k) + f(2 * k + 1)
    ensures Sum(f, 2 * n) == Sum(h, n)
  {
    if n > 0 {
      SumPairs(f, h, n - 1);
    }
  }
}
