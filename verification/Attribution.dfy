/** Shapley attribution of a causal graph (shapley.go): exact enumeration, sampling, ranking. */
module Attribution {
  import opened Causal
  import opened Sums
  import opened Masks
  import opened Shapley
  import opened Sampling

  const EXACT_MAX_PLAYERS := 14
  const MAX_PLAYERS := 64
  const SAMPLED_PERMUTATIONS := 256

  function RoleWeight(r: Role): real {
    match r
    case Evidence => 1.0
    case Intervention => 0.5
    case Confounder => -2.0
    case Unknown => 0.5
    case _ => 0.0
  }

  // ---- the game a graph's nodes play ----

  function Contribution(p: CausalNode): real {
    RoleWeight(p.role) * p.weight
  }

  function Part(players: seq<CausalNode>, mask: nat, i: nat): real {
    if i < |players| && Bit(mask, i) then Contribution(players[i]) else 0.0
  }

  function Parts(players: seq<CausalNode>, mask: nat): nat -> real {
    (i: nat) => Part(players, mask, i)
  }

  function Score(players: seq<CausalNode>, mask: nat): real {
    Sum(Parts(players, mask), |players|)
  }

  /** v(S), the confidence coalition `mask` reaches on its own. */
  function Confidence(sigma: real -> real, players: seq<CausalNode>, mask: nat): real {
    sigma(Score(players, mask))
  }

  function Game(sigma: real -> real, players: seq<CausalNode>): nat -> real {
    (mask: nat) => Confidence(sigma, players, mask)
  }

  method ShapleyValue(sigma: real -> real, players: seq<CausalNode>, mask: nat) returns (r: real)
    ensures r == Game(sigma, players)(mask)
  {
    var score := 0.0;
    for i := 0 to |players|
      invariant score == Sum(Parts(players, mask), i)
    {
      if !Bit(mask, i) {
        continue;
      }
      score := score + RoleWeight(players[i].role) * players[i].weight;
    }
    r := sigma(score);
  }

  /** The term of the double loop for one player and one coalition. */
  function LoopTerm(s: nat, n: nat, without: real, with: real): real
    requires s < n
  {
    Factorial(s) * Factorial(n - s - 1) / Factorial(n) * (with - without)
  }

  lemma StepTerm(v: nat -> real, n: nat, i: nat, mask: nat)
    requires i < n && mask < Pow2(n)
    ensures Bit(mask, i) ==> Terms(Weighted(v, Shares(n)), i)(mask) == 0.0
    ensures !Bit(mask, i) ==>
      && Ones(mask) < n
      && Terms(Weighted(v, Shares(n)), i)(mask) == LoopTerm(Ones(mask), n, v(mask), v(mask + Pow2(i)))
  {
    hide Bit, Ones, Pow2, Factorial;
    if !Bit(mask, i) {
      OnesOfPartial(mask, i, n);
    }
    TermIsShareOfMarginal(v, n, i, mask);
  }

  method FactorialTable(n: nat) returns (table: seq<real>)
    ensures |table| == n + 1
    ensures forall k :: 0 <= k <= n ==> table[k] == Factorial(k)
  {
    var factorial := new real[n + 1];
    factorial[0] := 1.0;
    assert Factorial(0) == 1.0;
    hide Factorial;
    for i := 1 to n + 1
      invariant forall k :: 0 <= k < i ==> factorial[k] == Factorial(k)
    {
      var next := factorial[i - 1] * i as real;
      assert next == Factorial(i) by {
        FactorialStep(i);
      }
      factorial[i] := next;
    }
    table := factorial[..];
  }

  method WeightedMarginal(factorial: seq<real>, n: nat, s: nat, without: real, with: real) returns (r: real)
    requires s < n && |factorial| == n + 1
    requires forall k :: 0 <= k <= n ==> factorial[k] == Factorial(k)
    ensures r == LoopTerm(s, n, without, with)
  {
    var weight := factorial[s] * factorial[n - s - 1] / factorial[n];
    r := weight * (with - without);
  }

  /** The inner loop: every player outside `mask` gains its term. */
  method AddCoalition(sigma: real -> real, players: seq<CausalNode>, factorial: seq<real>, mask: nat, phi: array<real>)
    requires phi.Length == |players| && |factorial| == |players| + 1 && mask < Pow2(|players|)
    requires forall k :: 0 <= k <= |players| ==> factorial[k] == Factorial(k)
    modifies phi
    ensures forall j :: 0 <= j < |players| ==>
      phi[j] == old(phi[j]) + Terms(Weighted(Game(sigma, players), Shares(|players|)), j)(mask)
  {
    hide Bit, Ones, Pow2, Factorial, Game, Score, Weighted, Shares, Terms, LoopTerm;
    var n := |players|;
    ghost var v := Game(sigma, players);
    ghost var g := Weighted(v, Shares(n));
    var sSize := Ones(mask);
    for i := 0 to n
      invariant forall j :: 0 <= j < i ==> phi[j] == old(phi[j]) + Terms(g, j)(mask)
      invariant forall j :: i <= j < n ==> phi[j] == old(phi[j])
    {
      StepTerm(v, n, i, mask);
      if Bit(mask, i) {
        continue;
      }
      var vWithout := ShapleyValue(sigma, players, mask);
      var vWith := ShapleyValue(sigma, players, WithBit(mask, i));
      var term := WeightedMarginal(factorial, n, sSize, vWithout, vWith);
      phi[i] := phi[i] + term;
    }
  }

  /** The nested loops over masks and players fill in every player's Shapley value. The
      caller's cut-off keeps the shift within 64 bits. */
  method ExactShapley(sigma: real -> real, players: seq<CausalNode>) returns (phi: array<real>)
    requires |players| < 64
    ensures fresh(phi) && phi.Length == |players|
    ensures forall i :: 0 <= i < |players| ==> phi[i] == ExactPhi(Game(sigma, players), |players|, i)
  {
    hide Bit, Ones, Pow2, Factorial, Game, Score, Weighted, Shares, Terms;
    var n := |players|;
    phi := new real[n](_ => 0.0);
    var factorial := FactorialTable(n);
    ghost var g := Weighted(Game(sigma, players), Shares(n));
    for mask := 0 to Pow2(n)
      invariant forall j :: 0 <= j < n ==> phi[j] == Sum(Terms(g, j), mask)
    {
      AddCoalition(sigma, players, factorial, mask, phi);
    }
  }

  // ---- sampling ----

  function SeedDraws(env: Env, players: seq<CausalNode>): (nat, nat) -> nat {
    var ids := Ids(players);
    (k: nat, i: nat) => env.draw(ids, k, i)
  }

  /** Averages marginal contributions over shuffled orders; the coalition never outgrows 64 bits. */
  method SampledShapley(env: Env, players: seq<CausalNode>, perms: nat) returns (phi: array<real>)
    requires perms > 0 && |players| <= 64
    ensures fresh(phi) && phi.Length == |players|
    ensures forall i :: 0 <= i < |players| ==>
      phi[i] == SampledPhi(Game(env.sigma, players), |players|, SeedDraws(env, players), perms, i)
  {
    hide Game, Score, SeedDraws, Shuffled, RoundPhi, Mean, Sum, Row, Rounds, OrderPhi, IsOrder;
    var n := |players|;
    var draw := SeedDraws(env, players);
    ghost var v := Game(env.sigma, players);
    phi := new real[n](_ => 0.0);
    var perm := new nat[n](i requires i >= 0 => i);
    assert perm[..] == Identity(n);
    NoRoundYet(v, n, draw);
    for k := 0 to perms
      invariant perm[..] == OrderAfter(n, draw, k)
      invariant forall j :: 0 <= j < n ==> phi[j] == Sum(Row(Rounds(v, n, draw), j), k)
    {
      Shuffle(perm, RoundDraws(draw, k));
      OrderAfterIsOrder(n, draw, k + 1);
      assert perm[..] == OrderAfter(n, draw, k + 1);
      AddRound(env.sigma, players, perm, phi);
      forall j | 0 <= j < n
        ensures Sum(Row(Rounds(v, n, draw), j), k + 1) == Sum(Row(Rounds(v, n, draw), j), k) + OrderPhi(v, perm[..], j)
      {
        RoundUnfolds(v, n, draw, j, k);
      }
    }
    ScaleDown(phi, perms);
    forall j | 0 <= j < n ensures phi[j] == SampledPhi(v, n, draw, perms, j) {
    }
  }

  /** Every sum divided by the number of rounds, in place. */
  method ScaleDown(phi: array<real>, perms: nat)
    requires perms > 0
    modifies phi
    ensures forall j :: 0 <= j < phi.Length ==> phi[j] == Mean(old(phi[j]), perms)
  {
    var scale := 1.0 / perms as real;
    for i := 0 to phi.Length
      invariant forall j :: 0 <= j < i ==> phi[j] == Mean(old(phi[j]), perms)
      invariant forall j :: i <= j < phi.Length ==> phi[j] == old(phi[j])
    {
      phi[i] := phi[i] * scale;
    }
  }

  lemma NoRoundYet(v: nat -> real, n: nat, draw: (nat, nat) -> nat)
    ensures forall j: nat :: Sum(Row(Rounds(v, n, draw), j), 0) == 0.0
  {
  }

  lemma RoundUnfolds(v: nat -> real, n: nat, draw: (nat, nat) -> nat, i: nat, k: nat)
    ensures Sum(Row(Rounds(v, n, draw), i), k + 1)
         == Sum(Row(Rounds(v, n, draw), i), k) + OrderPhi(v, OrderAfter(n, draw, k + 1), i)
  {
    hide OrderPhi, OrderAfter;
  }

  /** One pass over an order of arrival, carrying the coalition and its worth. */
  method AddRound(sigma: real -> real, players: seq<CausalNode>, perm: array<nat>, phi: array<real>)
    requires IsOrder(perm[..], |players|) && perm.Length == phi.Length == |players|
    modifies phi
    ensures perm[..] == old(perm[..])
    ensures forall j :: 0 <= j < |players| ==>
      phi[j] == old(phi[j]) + OrderPhi(Game(sigma, players), perm[..], j)
  {
    hide Game, Score, Bit, Pow2;
    var n := |players|;
    ghost var v := Game(sigma, players);
    ghost var p := perm[..];
    var mask := 0;
    var prev := ShapleyValue(sigma, players, mask);
    for t := 0 to n
      invariant perm[..] == p
      invariant mask == Arrived(p, t) && prev == v(mask)
      invariant forall j :: 0 <= j < n ==> phi[j] == old(phi[j]) + Sum(Row(Gains(v, p), j), t)
    {
      var idx := perm[t];
      mask := WithBit(mask, idx);
      var curr := ShapleyValue(sigma, players, mask);
      forall j | 0 <= j < n
        ensures Row(Gains(v, p), j)(t) == if j == p[t] then v(Arrived(p, t + 1)) - v(Arrived(p, t)) else 0.0
      {
        GainUnfolds(v, p, j, t);
      }
      phi[idx] := phi[idx] + (curr - prev);
      prev := curr;
    }
  }

  lemma GainUnfolds(v: nat -> real, p: seq<nat>, i: nat, t: nat)
    requires t < |p|
    ensures Row(Gains(v, p), i)(t) == if i == p[t] then v(Arrived(p, t + 1)) - v(Arrived(p, t)) else 0.0
  {
    hide Arrived;
  }
}
