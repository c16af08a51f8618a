/** Order facts about quotients, kept apart because they multiply variables. */
module Ratios {

  lemma ScaleKeepsOrder(q: real, t: real, m: real)
    requires m > 0.0
    ensures q >= t <==> q * m >= t * m
  {
    if q >= t {
      assert (q - t) * m >= 0.0;
    } else {
      assert (t - q) * m > 0.0;
    }
  }

  lemma ShareOver(c: real, m: real, t: real)
    requires m > 0.0
    ensures c / m >= t <==> c >= t * m
  {
    var q := c / m;
    assert q * m == c;
    ScaleKeepsOrder(q, t, m);
  }

  lemma ShareUnder(c: real, m: real, t: real)
    requires m > 0.0
    ensures c / m <= t <==> c <= t * m
  {
    var q := c / m;
    assert q * m == c;
    ScaleKeepsOrder(t, q, m);
  }

  function Times(n: nat, t: real): real {
    n as real * t
  }

  lemma TimesStep(n: nat, t: real)
    ensures Times(n + 1, t) == Times(n, t) + t && Times(0, t) == 0.0 && Times(n, 1.0) == n as real
  {
  }

  /** A sum over a count, 0 for nothing. */
  function Mean(sum: real, n: nat): real {
    if n == 0 then 0.0 else sum / n as real
  }

  lemma MeanIs(sum: real, n: nat)
    ensures Mean(sum, n) == if n == 0 then 0.0 else sum / n as real
  {
  }

  lemma MeanBounds(sum: real, n: nat, hi: real)
    requires 0.0 <= sum <= Times(n, hi) && hi >= 0.0
    ensures 0.0 <= Mean(sum, n) <= hi
  {
    if n > 0 {
      ShareOver(sum, n as real, 0.0);
      ShareUnder(sum, n as real, hi);
    }
  }

  lemma PositiveMean(sum: real, n: nat)
    requires sum > 0.0 && n > 0
    ensures Mean(sum, n) > 0.0
  {
    ShareUnder(sum, n as real, 0.0);
  }

  lemma SpecialMeans(n: nat)
    ensures Mean(0.0, n) == 0.0
    ensures n > 0 ==> Mean(n as real, n) == 1.0
  {
  }
}
