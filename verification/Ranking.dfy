/** Node attributions of a whole graph, ranked (shapley.go, AttributeNecessity). */
module Ranking {
  import opened Text
  import opened Sorting
  import opened Causal
  import opened Sums
  import opened Masks
  import opened Shapley
  import opened Sampling
  import opened Attribution

  datatype NodeAttribution = NodeAttribution(id: string, role: Role, phi: real, rank: nat, approximate: bool)

  // ---- the game ----

  function Single(c: real, k: nat): nat -> real {
    (i: nat) => if i == k then c else 0.0
  }

  /** Joining shifts the score by the joiner's own contribution. */
  lemma ScoreAfterJoining(players: seq<CausalNode>, mask: nat, i: nat)
    requires i < |players| && !Bit(mask, i)
    ensures Score(players, mask + Pow2(i)) == Score(players, mask) + Contribution(players[i])
  {
    var n, c := |players|, Contribution(players[i]);
    var f, h := Parts(players, mask), Parts(players, mask + Pow2(i));
    hide Contribution, Bit, Pow2;
    forall k: nat | k < n ensures h(k) == f(k) + Single(c, i)(k) {
      BitsAfterAdding(mask, i, k);
    }
    SumPlus(f, Single(c, i), h, n);
    SumSingle(Single(c, i), i, n);
  }

  function TotalContribution(players: seq<CausalNode>): real {
    if players == [] then 0.0
    else TotalContribution(players[..|players| - 1]) + Contribution(players[|players| - 1])
  }

  lemma {:induction false} FullScoreUpTo(players: seq<CausalNode>, k: nat)
    requires k <= |players|
    ensures Sum(Parts(players, Pow2(|players|) - 1), k) == TotalContribution(players[..k])
  {
    hide Contribution, Bit, Pow2;
    if k > 0 {
      FullScoreUpTo(players, k - 1);
      FullHasEveryBit(|players|, k - 1);
      assert players[..k][..k - 1] == players[..k - 1];
    }
  }

  lemma EdgeScores(players: seq<CausalNode>)
    ensures Score(players, Pow2(|players|) - 1) == TotalContribution(players)
    ensures Score(players, 0) == 0.0
  {
    hide Contribution, Bit, Pow2;
    FullScoreUpTo(players, |players|);
    assert players[..|players|] == players;
    forall i: nat ensures Parts(players, 0)(i) == 0.0 {
      EmptyMask(i);
    }
    SumZero(Parts(players, 0), |players|);
  }

  // ---- attribution of each player ----

  function Phi(env: Env, players: seq<CausalNode>, i: nat): real {
    if |players| <= EXACT_MAX_PLAYERS then ExactPhi(Game(env.sigma, players), |players|, i)
    else SampledPhi(Game(env.sigma, players), |players|, SeedDraws(env, players), SAMPLED_PERMUTATIONS, i)
  }

  function Phis(env: Env, players: seq<CausalNode>): nat -> real {
    (i: nat) => Phi(env, players, i)
  }

  /** What the players' values share out: the confidence of the whole graph over that of none of it. */
  lemma PhiEfficiency(env: Env, players: seq<CausalNode>)
    ensures Sum(Phis(env, players), |players|) == env.sigma(TotalContribution(players)) - env.sigma(0.0)
  {
    var n, v := |players|, Game(env.sigma, players);
    EdgeScores(players);
    hide Score, Pow2, Phis, TotalContribution, Sum, SeedDraws;
    assert v(Pow2(n) - 1) == env.sigma(TotalContribution(players)) && v(0) == env.sigma(0.0);
    PhisAre(env, players);
    hide Game;
    if n <= EXACT_MAX_PLAYERS {
      Efficiency(v, n);
    } else {
      SampledEfficiency(v, n, SeedDraws(env, players), SAMPLED_PERMUTATIONS);
    }
  }

  /** Exact up to the limit, sampled above it. */
  lemma PhisAre(env: Env, players: seq<CausalNode>)
    ensures var n, v, draw := |players|, Game(env.sigma, players), SeedDraws(env, players);
      Sum(Phis(env, players), n)
      == if n <= EXACT_MAX_PLAYERS then Sum(ExactPhis(v, n), n) else Sum(SampledPhis(v, n, draw, SAMPLED_PERMUTATIONS), n)
  {
    hide Game, SeedDraws, ExactPhi, SampledPhi, Sum;
    var n, v, draw := |players|, Game(env.sigma, players), SeedDraws(env, players);
    if n <= EXACT_MAX_PLAYERS {
      SumCongruent(Phis(env, players), ExactPhis(v, n), n);
    } else {
      SumCongruent(Phis(env, players), SampledPhis(v, n, draw, SAMPLED_PERMUTATIONS), n);
    }
  }

  lemma MarginalOfPlayer(env: Env, players: seq<CausalNode>, i: nat, m: nat)
    requires Squashing(env.sigma) && i < |players| && !Bit(m, i)
    ensures -1.0 < Marginal(Game(env.sigma, players), i, m) < 1.0
    ensures Contribution(players[i]) > 0.0 ==> Marginal(Game(env.sigma, players), i, m) > 0.0
    ensures Contribution(players[i]) == 0.0 ==> Marginal(Game(env.sigma, players), i, m) == 0.0
    ensures Contribution(players[i]) < 0.0 ==> Marginal(Game(env.sigma, players), i, m) < 0.0
  {
    ScoreAfterJoining(players, m, i);
    hide Score, Pow2, Bit, Contribution;
  }

  /** A value has the sign of the node's weighted role, and never reaches 1 in size. */
  lemma PhiSignAndBound(env: Env, players: seq<CausalNode>, i: nat)
    requires Squashing(env.sigma) && i < |players|
    ensures -1.0 < Phi(env, players, i) < 1.0
    ensures Contribution(players[i]) > 0.0 ==> Phi(env, players, i) > 0.0
    ensures Contribution(players[i]) == 0.0 ==> Phi(env, players, i) == 0.0
    ensures Contribution(players[i]) < 0.0 ==> Phi(env, players, i) < 0.0
  {
    hide Pow2, Bit, Contribution, Marginal, Phi;
    var v, c := Game(env.sigma, players), Contribution(players[i]);
    forall m: nat | !Bit(m, i)
      ensures -1.0 < Marginal(v, i, m) < 1.0
      ensures (c > 0.0 ==> Marginal(v, i, m) > 0.0) && (c < 0.0 ==> Marginal(v, i, m) < 0.0)
      ensures c == 0.0 ==> Marginal(v, i, m) == 0.0
    {
      MarginalOfPlayer(env, players, i, m);
    }
    PhiStrictlyWithin(env, players, i, -1.0, 1.0);
    if c > 0.0 {
      PhiStrictlyWithin(env, players, i, 0.0, 1.0);
    } else if c < 0.0 {
      PhiStrictlyWithin(env, players, i, -1.0, 0.0);
    } else {
      PhiWithin(env, players, i, 0.0, 0.0);
    }
  }

  lemma PhiStrictlyWithin(env: Env, players: seq<CausalNode>, i: nat, low: real, high: real)
    requires i < |players|
    requires forall m: nat :: !Bit(m, i) ==> low < Marginal(Game(env.sigma, players), i, m) < high
    ensures low < Phi(env, players, i) < high
  {
    hide Pow2, Bit, Marginal, ExactPhi, SampledPhi, Game;
    var v := Game(env.sigma, players);
    EmptyMask(i);
    if |players| <= EXACT_MAX_PLAYERS {
      PhiWithinMarginals(v, |players|, i, low, high);
    } else {
      SampledStrictlyWithin(v, |players|, SeedDraws(env, players), SAMPLED_PERMUTATIONS, i, low, high);
    }
  }

  lemma PhiWithin(env: Env, players: seq<CausalNode>, i: nat, low: real, high: real)
    requires i < |players|
    requires forall m: nat :: !Bit(m, i) ==> low <= Marginal(Game(env.sigma, players), i, m) <= high
    ensures low <= Phi(env, players, i) <= high
  {
    hide Pow2, Bit, Marginal, ExactPhi, SampledPhi, Game;
    var v := Game(env.sigma, players);
    if |players| <= EXACT_MAX_PLAYERS {
      PhiWithinMarginals(v, |players|, i, low, high);
    } else {
      SampledWithinMarginals(v, |players|, SeedDraws(env, players), SAMPLED_PERMUTATIONS, i, low, high);
    }
  }

  /** The exact values rank players exactly as their own contributions do. */
  lemma PhiFollowsContribution(env: Env, players: seq<CausalNode>, i: nat, j: nat)
    requires Squashing(env.sigma) && |players| <= EXACT_MAX_PLAYERS && i < |players| && j < |players|
    ensures Phi(env, players, j) <= Phi(env, players, i) <==> Contribution(players[j]) <= Contribution(players[i])
  {
    if Contribution(players[j]) <= Contribution(players[i]) {
      PhiOfMore(env, players, i, j);
    } else {
      PhiOfMore(env, players, j, i);
    }
  }

  lemma PhiOfMore(env: Env, players: seq<CausalNode>, i: nat, j: nat)
    requires Squashing(env.sigma) && |players| <= EXACT_MAX_PLAYERS && i < |players| && j < |players|
    requires Contribution(players[j]) <= Contribution(players[i])
    ensures Phi(env, players, j) <= Phi(env, players, i)
    ensures Contribution(players[j]) < Contribution(players[i]) ==> Phi(env, players, j) < Phi(env, players, i)
  {
    hide Pow2, Bit, Score, Contribution, ExactPhi;
    var n, v := |players|, Game(env.sigma, players);
    if i != j {
      forall m: nat | m < Pow2(n) && !Bit(m, i) && !Bit(m, j) ensures v(m + Pow2(j)) <= v(m + Pow2(i)) {
        ScoreAfterJoining(players, m, i);
        ScoreAfterJoining(players, m, j);
        SquashingMonotone(env.sigma, Score(players, m + Pow2(j)), Score(players, m + Pow2(i)));
      }
      RankRespectsMarginals(v, n, i, j);
      if Contribution(players[j]) < Contribution(players[i]) {
        EmptyMask(i);
        EmptyMask(j);
        ScoreAfterJoining(players, 0, i);
        ScoreAfterJoining(players, 0, j);
        SquashingMonotone(env.sigma, Score(players, 0 + Pow2(i)), Score(players, 0 + Pow2(j)));
      }
    }
  }

  // ---- the attribution of a graph ----

  /** Every node but the outcomes. */
  function Players(nodes: seq<CausalNode>): (r: seq<CausalNode>)
    ensures |r| <= |nodes|
    ensures forall p :: p in r <==> p in nodes && p.role != Outcome
  {
    if nodes == [] then []
    else
      var rest := Players(nodes[..|nodes| - 1]);
      if nodes[|nodes| - 1].role == Outcome then rest else rest + [nodes[|nodes| - 1]]
  }

  predicate HeavierFirst(a: CausalNode, b: CausalNode) {
    a.weight > b.weight || (a.weight == b.weight && StringLE(a.id, b.id))
  }

  /** At most 64 players, the heaviest. */
  function Capped(players: seq<CausalNode>): (r: seq<CausalNode>)
    ensures |r| <= MAX_PLAYERS
    ensures |players| <= MAX_PLAYERS ==> r == players
    ensures |players| > 0 ==> |r| > 0
  {
    if |players| > MAX_PLAYERS then Sort(players, HeavierFirst)[..MAX_PLAYERS] else players
  }

  lemma CappedArePlayers(players: seq<CausalNode>)
    ensures forall p :: p in Capped(players) ==> p in players
  {
    forall p | p in Capped(players) ensures p in players {
      SortKeepsMember(players, HeavierFirst, p);
    }
  }

  function Row0(env: Env, players: seq<CausalNode>, i: nat): NodeAttribution
    requires i < |players|
  {
    NodeAttribution(players[i].id, players[i].role, Phi(env, players, i), 0, |players| > EXACT_MAX_PLAYERS)
  }

  function Rows(env: Env, players: seq<CausalNode>): (r: seq<NodeAttribution>)
    ensures |r| == |players|
    ensures forall i :: 0 <= i < |r| ==> r[i] == Row0(env, players, i)
  {
    seq(|players|, i requires 0 <= i < |players| => Row0(env, players, i))
  }

  predicate ByMagnitude(a: NodeAttribution, b: NodeAttribution) {
    Abs(a.phi) > Abs(b.phi) || (Abs(a.phi) == Abs(b.phi) && StringLE(a.id, b.id))
  }

  lemma ByMagnitudeOrders()
    ensures TotalPreorder(ByMagnitude)
  {
    hide Abs;
    StringOrder();
  }

  function Numbered(rows: seq<NodeAttribution>): (r: seq<NodeAttribution>)
    ensures |r| == |rows|
    ensures forall i :: 0 <= i < |r| ==> r[i] == rows[i].(rank := i + 1)
  {
    seq(|rows|, i requires 0 <= i < |rows| => rows[i].(rank := i + 1))
  }

  /** AttributeNecessity as a function of the graph. */
  function Attributed(env: Env, nodes: seq<CausalNode>): seq<NodeAttribution> {
    Numbered(Sort(Rows(env, Capped(Players(nodes))), ByMagnitude))
  }

  method SelectPlayers(nodes: seq<CausalNode>) returns (players: seq<CausalNode>)
    ensures players == Players(nodes)
  {
    players := [];
    for k := 0 to |nodes|
      invariant players == Players(nodes[..k])
    {
      assert nodes[..k + 1][..k] == nodes[..k];
      if nodes[k].role == Outcome {
        continue;
      }
      players := players + [nodes[k]];
    }
    assert nodes[..|nodes|] == nodes;
  }

  method AttributeRows(env: Env, players: seq<CausalNode>) returns (rows: seq<NodeAttribution>)
    requires |players| <= MAX_PLAYERS
    ensures rows == Rows(env, players)
  {
    hide ExactPhi, SampledPhi, Game;
    var phi: array<real>;
    var approx := false;
    if |players| <= EXACT_MAX_PLAYERS {
      phi := ExactShapley(env.sigma, players);
    } else {
      phi := SampledShapley(env, players, SAMPLED_PERMUTATIONS);
      approx := true;
    }
    rows := [];
    for i := 0 to |players|
      invariant |rows| == i && forall k :: 0 <= k < i ==> rows[k] == Row0(env, players, k)
    {
      rows := rows + [NodeAttribution(players[i].id, players[i].role, phi[i], 0, approx)];
    }
  }

  method NumberRows(sorted: seq<NodeAttribution>) returns (rows: seq<NodeAttribution>)
    ensures rows == Numbered(sorted)
  {
    rows := sorted;
    for i := 0 to |rows|
      invariant |rows| == |sorted|
      invariant forall k :: 0 <= k < i ==> rows[k] == sorted[k].(rank := k + 1)
      invariant forall k :: i <= k < |sorted| ==> rows[k] == sorted[k]
    {
      rows := rows[i := rows[i].(rank := i + 1)];
    }
  }

  method AttributeNecessity(env: Env, graph: CausalGraph) returns (r: seq<NodeAttribution>)
    ensures r == Attributed(env, graph.nodes)
  {
    hide Rows, ByMagnitude;
    var players := SelectPlayers(graph.nodes);
    if |players| == 0 {
      assert Capped(players) == [];
      return [];
    }
    if |players| > MAX_PLAYERS {
      players := Sort(players, HeavierFirst);
      players := players[..MAX_PLAYERS];
    }
    var rows := AttributeRows(env, players);
    r := NumberRows(Sort(rows, ByMagnitude));
  }

  // ---- what the ranking keeps ----

  function PhiTotal(rows: seq<NodeAttribution>): real {
    if rows == [] then 0.0 else rows[0].phi + PhiTotal(rows[1..])
  }

  lemma {:induction false} PhiTotalInsert(a: NodeAttribution, rows: seq<NodeAttribution>)
    ensures PhiTotal(Insert(a, rows, ByMagnitude)) == a.phi + PhiTotal(rows)
  {
    hide ByMagnitude;
    if rows == [] || ByMagnitude(a, rows[0]) {
      assert ([a] + rows)[1..] == rows;
    } else {
      PhiTotalInsert(a, rows[1..]);
      assert ([rows[0]] + Insert(a, rows[1..], ByMagnitude))[1..] == Insert(a, rows[1..], ByMagnitude);
    }
  }

  lemma {:induction false} PhiTotalSort(rows: seq<NodeAttribution>)
    ensures PhiTotal(Sort(rows, ByMagnitude)) == PhiTotal(rows)
  {
    hide ByMagnitude;
    if rows != [] {
      PhiTotalSort(rows[1..]);
      PhiTotalInsert(rows[0], Sort(rows[1..], ByMagnitude));
    }
  }

  lemma {:induction false} PhiTotalSame(a: seq<NodeAttribution>, b: seq<NodeAttribution>)
    requires |a| == |b| && forall i :: 0 <= i < |a| ==> a[i].phi == b[i].phi
    ensures PhiTotal(a) == PhiTotal(b)
  {
    if a != [] {
      PhiTotalSame(a[1..], b[1..]);
    }
  }

  lemma {:induction false} PhiTotalIsSum(rows: seq<NodeAttribution>, f: nat -> real, from: nat)
    requires forall i: nat :: i < |rows| ==> rows[i].phi == f(from + i)
    ensures Sum(f, from) + PhiTotal(rows) == Sum(f, from + |rows|)
    decreases |rows|
  {
    if rows != [] {
      assert rows[0].phi == f(from + 0);
      PhiTotalIsSum(rows[1..], f, from + 1);
    }
  }

  /** The attributions handed out add up to the graph's confidence over the empty
      coalition's, exact or sampled, ranked or not. */
  lemma AttributionEfficiency(env: Env, nodes: seq<CausalNode>)
    ensures PhiTotal(Attributed(env, nodes))
         == env.sigma(TotalContribution(Capped(Players(nodes)))) - env.sigma(0.0)
  {
    var players := Capped(Players(nodes));
    hide Phi, Players, Capped, ByMagnitude, TotalContribution;
    var rows := Rows(env, players);
    PhiTotalIsSum(rows, Phis(env, players), 0);
    PhiTotalSort(rows);
    PhiTotalSame(Attributed(env, nodes), Sort(rows, ByMagnitude));
    PhiEfficiency(env, players);
  }

  /** Ranks count from 1, magnitudes never grow along them, and ties go by ID. */
  lemma AttributionRanked(env: Env, nodes: seq<CausalNode>)
    ensures var r := Attributed(env, nodes);
      && |r| == |Capped(Players(nodes))|
      && (forall k :: 0 <= k < |r| ==> r[k].rank == k + 1)
      && (forall j, k :: 0 <= j < k < |r| ==> Abs(r[j].phi) >= Abs(r[k].phi))
      && (forall j, k :: 0 <= j < k < |r| && Abs(r[j].phi) == Abs(r[k].phi) ==> StringLE(r[j].id, r[k].id))
  {
    hide Phi, Players, Capped, Abs, StringLE;
    var rows := Rows(env, Capped(Players(nodes)));
    ByMagnitudeOrders();
    SortSorts(rows, ByMagnitude);
    var s, r := Sort(rows, ByMagnitude), Attributed(env, nodes);
    forall j, k | 0 <= j < k < |r|
      ensures Abs(r[j].phi) >= Abs(r[k].phi)
      ensures Abs(r[j].phi) == Abs(r[k].phi) ==> StringLE(r[j].id, r[k].id)
    {
      assert ByMagnitude(s[j], s[k]);
    }
  }

  /** Each attribution belongs to one player. */
  lemma AttributionOfPlayer(env: Env, nodes: seq<CausalNode>, k: nat) returns (i: nat)
    requires k < |Attributed(env, nodes)|
    ensures i < |Capped(Players(nodes))| && Attributed(env, nodes)[k] == Row0(env, Capped(Players(nodes)), i).(rank := k + 1)
  {
    hide Phi, Players, Capped, ByMagnitude;
    var rows := Rows(env, Capped(Players(nodes)));
    var a := Sort(rows, ByMagnitude)[k];
    SortKeepsMember(rows, ByMagnitude, a);
    i :| 0 <= i < |rows| && rows[i] == a;
  }

  /** And each player has one. */
  lemma PlayerAttributed(env: Env, nodes: seq<CausalNode>, i: nat) returns (k: nat)
    requires i < |Capped(Players(nodes))|
    ensures k < |Attributed(env, nodes)| && Attributed(env, nodes)[k] == Row0(env, Capped(Players(nodes)), i).(rank := k + 1)
  {
    hide Phi, Players, Capped, ByMagnitude;
    var rows := Rows(env, Capped(Players(nodes)));
    SortKeepsMember(rows, ByMagnitude, rows[i]);
    var s := Sort(rows, ByMagnitude);
    k :| 0 <= k < |s| && s[k] == rows[i];
  }

  /** On non-negative weights the sign of an attribution is fixed by the role: a node
      labelled evidence is never reported as pulling confidence down. */
  lemma AttributionSigns(env: Env, nodes: seq<CausalNode>, k: nat)
    requires Squashing(env.sigma) && NonNegative(nodes)
    requires k < |Attributed(env, nodes)|
    ensures var a := Attributed(env, nodes)[k];
      && -1.0 < a.phi < 1.0
      && (a.role in {Evidence, Intervention, Unknown} ==> a.phi >= 0.0)
      && (a.role == Confounder ==> a.phi <= 0.0)
      && (a.role.Other? ==> a.phi == 0.0)
      && a.role != Outcome
  {
    hide Phi, Capped, ByMagnitude;
    var players := Capped(Players(nodes));
    var i := AttributionOfPlayer(env, nodes, k);
    CappedArePlayers(Players(nodes));
    assert players[i] in nodes;
    PhiSignAndBound(env, players, i);
  }
}
