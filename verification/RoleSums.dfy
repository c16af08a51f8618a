/** What plans and attributions come to in plain sums of the weights a graph carries in each
    role (pearl_loop.go and shapley.go, which the program says are consistent). */
module RoleSums {
  import opened Text
  import opened Sorting
  import opened Causal
  import opened Sums
  import opened Masks
  import opened Shapley
  import Sampling
  import opened Attribution
  import opened Ranking
  import opened Pearl

  /** The weights of the nodes in one role, added up. */
  function WeightIn(nodes: seq<CausalNode>, role: Role): real {
    if nodes == [] then 0.0
    else (if nodes[0].role == role then nodes[0].weight else 0.0) + WeightIn(nodes[1..], role)
  }

  lemma {:induction false} WeightOfConcat(a: seq<CausalNode>, b: seq<CausalNode>, role: Role)
    ensures WeightIn(a + b, role) == WeightIn(a, role) + WeightIn(b, role)
  {
    if a == [] {
      assert a + b == b;
    } else {
      assert (a + b)[1..] == a[1..] + b;
      WeightOfConcat(a[1..], b, role);
    }
  }

  lemma WeightOfOne(n: CausalNode, role: Role)
    ensures WeightIn([n], role) == if n.role == role then n.weight else 0.0
  {
    assert [n][1..] == [];
  }

  lemma OneMoreWeight(nodes: seq<CausalNode>, role: Role)
    requires nodes != []
    ensures var last := nodes[|nodes| - 1];
      WeightIn(nodes, role) == WeightIn(nodes[..|nodes| - 1], role) + if last.role == role then last.weight else 0.0
  {
    var front, last := nodes[..|nodes| - 1], nodes[|nodes| - 1];
    assert nodes == front + [last];
    WeightOfConcat(front, [last], role);
    WeightOfOne(last, role);
  }

  // ---- plans ----

  lemma {:induction false} EvidenceIsWeights(nodes: seq<CausalNode>)
    ensures EvidenceWeight(nodes) == WeightIn(nodes, Evidence) + 0.5 * WeightIn(nodes, Unknown)
    ensures ConfounderLoad(nodes) == WeightIn(nodes, Confounder)
  {
    hide WeightIn;
    if nodes == [] {
      NoWeight();
    } else {
      OneMoreWeight(nodes, Evidence);
      OneMoreWeight(nodes, Unknown);
      OneMoreWeight(nodes, Confounder);
      EvidenceIsWeights(nodes[..|nodes| - 1]);
    }
  }

  lemma NoWeight()
    ensures forall role: Role :: WeightIn([], role) == 0.0
  {
  }

  /** How many nodes of one role bear a name. */
  function Bearers(nodes: seq<CausalNode>, role: Role, id: string): nat {
    if nodes == [] then 0
    else Bearers(nodes[..|nodes| - 1], role, id)
         + if nodes[|nodes| - 1].role == role && nodes[|nodes| - 1].id == id then 1 else 0
  }

  lemma {:induction false} NamesCounted(nodes: seq<CausalNode>, a: Role, b: Role, id: string)
    ensures multiset(IdsOf(nodes, a, b))[id] == if a == b then Bearers(nodes, a, id) else Bearers(nodes, a, id) + Bearers(nodes, b, id)
  {
    if nodes != [] {
      NamesCounted(nodes[..|nodes| - 1], a, b, id);
    }
  }

  /** The hypothesis of a plan: half the unknown weight counts as evidence, confounders are the
      load, and the names are listed in order, each as often as it occurs. */
  lemma HypothesisMeaning(env: Env, nodes: seq<CausalNode>)
    ensures var h := Plan(env, nodes).hypothesis;
      && h.evidenceWeight == WeightIn(nodes, Evidence) + 0.5 * WeightIn(nodes, Unknown)
      && h.confounderLoad == WeightIn(nodes, Confounder)
      && Sorted(h.evidence, StringLE) && Sorted(h.confounders, StringLE)
      && (forall id :: multiset(h.evidence)[id] == Bearers(nodes, Evidence, id) + Bearers(nodes, Unknown, id))
      && (forall id :: multiset(h.confounders)[id] == Bearers(nodes, Confounder, id))
  {
    hide WeightIn, EvidenceWeight, ConfounderLoad, StringLE, Actions, Predicted, Bearers, IdsOf;
    EvidenceIsWeights(nodes);
    StringOrder();
    var a, b := IdsOf(nodes, Evidence, Unknown), IdsOf(nodes, Confounder, Confounder);
    SortSorts(a, StringLE);
    SortSorts(b, StringLE);
    SortPermutes(a, StringLE);
    SortPermutes(b, StringLE);
    forall id ensures multiset(a)[id] == Bearers(nodes, Evidence, id) + Bearers(nodes, Unknown, id) {
      NamesCounted(nodes, Evidence, Unknown, id);
    }
    forall id ensures multiset(b)[id] == Bearers(nodes, Confounder, id) {
      NamesCounted(nodes, Confounder, Confounder, id);
    }
  }

  /** A plan blocks from a load of 0.6 on; blocked, or without an intervention, it recommends
      nothing and projects the evidence less twice the load, squashed. */
  lemma ProjectionMeaning(env: Env, nodes: seq<CausalNode>)
    ensures var p := Plan(env, nodes).prediction;
      && (p.blocked <==> WeightIn(nodes, Confounder) >= 0.6)
      && (p.blocked || (forall n :: n in nodes ==> n.role != Intervention) ==>
            p.recommended == ""
            && p.confidence
               == env.sigma(WeightIn(nodes, Evidence) + 0.5 * WeightIn(nodes, Unknown) - 2.0 * WeightIn(nodes, Confounder)))
  {
    hide WeightIn, EvidenceWeight, ConfounderLoad, Ranked, Plan;
    EvidenceIsWeights(nodes);
    PlanMeaning(env, nodes);
    if Ranked(env, nodes) != [] {
      var n := RankedAreInterventions(env, nodes, 0);
    }
  }

  /** An intervention's risk: the floor the load raises, unless a higher one is announced. */
  ghost predicate RiskIs(env: Env, n: CausalNode, load: real, risk: real) {
    && risk >= 0.05 + 0.5 * load
    && ("risk" in n.meta ==> risk >= env.parse(n.meta["risk"]))
    && (risk == 0.05 + 0.5 * load || ("risk" in n.meta && risk == env.parse(n.meta["risk"])))
  }

  /** What a plan may say of an intervention, in the weights of the graph. */
  ghost predicate Proposes(env: Env, nodes: seq<CausalNode>, n: CausalNode, a: ActionCandidate) {
    && a.id == n.id
    && a.text == (if n.summary == "" then n.id else n.summary)
    && RiskIs(env, n, WeightIn(nodes, Confounder), a.risk)
    && a.score == env.sigma(WeightIn(nodes, Evidence) + 0.5 * WeightIn(nodes, Unknown) - 2.0 * WeightIn(nodes, Confounder)
                            + 0.5 * n.weight - a.risk)
  }

  lemma CandidateProposes(env: Env, nodes: seq<CausalNode>, n: CausalNode)
    ensures Proposes(env, nodes, n, Candidate(env, n, EvidenceWeight(nodes), ConfounderLoad(nodes)))
    ensures !Candidate(env, n, EvidenceWeight(nodes), ConfounderLoad(nodes)).recommended
  {
    EvidenceIsWeights(nodes);
    hide WeightIn, EvidenceWeight, ConfounderLoad;
  }

  function AsCandidate(env: Env, weight: real, load: real): CausalNode -> ActionCandidate {
    (n: CausalNode) => Candidate(env, n, weight, load)
  }

  function ByCandidate(env: Env, weight: real, load: real): (CausalNode, CausalNode) -> bool {
    (a: CausalNode, b: CausalNode) => Better(Candidate(env, a, weight, load), Candidate(env, b, weight, load))
  }

  /** The ranked candidates are those of the interventions in some order. */
  lemma RankedInOrder(env: Env, nodes: seq<CausalNode>) returns (order: seq<CausalNode>)
    ensures multiset(order) == multiset(Interventions(nodes)) && |Ranked(env, nodes)| == |order|
    ensures forall k :: 0 <= k < |order| ==>
      Ranked(env, nodes)[k] == Candidate(env, order[k], EvidenceWeight(nodes), ConfounderLoad(nodes))
  {
    hide EvidenceWeight, ConfounderLoad, Better, Interventions, Candidate, Sort;
    var w, l, ns := EvidenceWeight(nodes), ConfounderLoad(nodes), Interventions(nodes);
    order := Sort(ns, ByCandidate(env, w, l));
    SortPermutes(ns, ByCandidate(env, w, l));
    SortCommutesWithMap(AsCandidate(env, w, l), ns, ByCandidate(env, w, l), Better);
    assert Candidates(env, ns, w, l) == Map(AsCandidate(env, w, l), ns);
  }

  lemma ActionsAreRanked(env: Env, nodes: seq<CausalNode>)
    ensures var cs, s := Plan(env, nodes).actions, Ranked(env, nodes);
      |cs| == |s| && forall k :: 0 <= k < |s| ==>
        cs[k] == s[k].(recommended := s[k].recommended || (k == 0 && ConfounderLoad(nodes) < 0.6))
  {
    hide EvidenceWeight, ConfounderLoad, Better, Interventions, Candidate, Sort, Predicted, IdsOf, StringLE;
  }

  /** A plan's actions are the interventions, one action for each, by falling score and then by
      name; the first is recommended unless the plan is blocked, and no other. */
  lemma ActionsMeaning(env: Env, nodes: seq<CausalNode>) returns (order: seq<CausalNode>)
    ensures var cs := Plan(env, nodes).actions;
      && multiset(order) == multiset(Interventions(nodes)) && |cs| == |order|
      && (forall k :: 0 <= k < |cs| ==> Proposes(env, nodes, order[k], cs[k]))
      && (forall k :: 0 <= k < |cs| ==> (cs[k].recommended <==> k == 0 && WeightIn(nodes, Confounder) < 0.6))
      && (forall j, k :: 0 <= j < k < |cs| ==>
            cs[j].score > cs[k].score || (cs[j].score == cs[k].score && StringLE(cs[j].id, cs[k].id)))
  {
    hide WeightIn, EvidenceWeight, ConfounderLoad, StringLE, Interventions, Candidate, Plan, RiskIs, Ranked, Proposes;
    EvidenceIsWeights(nodes);
    order := RankedInOrder(env, nodes);
    ActionsAreRanked(env, nodes);
    RankedFalls(env, nodes);
    forall k | 0 <= k < |order|
      ensures Proposes(env, nodes, order[k], Plan(env, nodes).actions[k])
      ensures Plan(env, nodes).actions[k].recommended <==> k == 0 && WeightIn(nodes, Confounder) < 0.6
    {
      CandidateProposes(env, nodes, order[k]);
      FlagIsAside(env, nodes, order[k], Ranked(env, nodes)[k], Plan(env, nodes).actions[k].recommended);
    }
  }

  lemma FlagIsAside(env: Env, nodes: seq<CausalNode>, n: CausalNode, a: ActionCandidate, flag: bool)
    ensures Proposes(env, nodes, n, a) ==> Proposes(env, nodes, n, a.(recommended := flag))
  {
    hide WeightIn, RiskIs;
  }

  lemma RankedFalls(env: Env, nodes: seq<CausalNode>)
    ensures forall j, k :: 0 <= j < k < |Ranked(env, nodes)| ==> Better(Ranked(env, nodes)[j], Ranked(env, nodes)[k])
  {
    hide Better, Candidates, Interventions, EvidenceWeight, ConfounderLoad;
    BetterOrders();
    SortSorts(Candidates(env, Interventions(nodes), EvidenceWeight(nodes), ConfounderLoad(nodes)), Better);
  }

  lemma {:induction false} UnclassifiedOfConcat(a: seq<CausalNode>, b: seq<CausalNode>)
    ensures Unclassified(a + b) == Unclassified(a) + Unclassified(b)
    decreases |b|
  {
    if b == [] {
      assert a + b == a;
    } else {
      var front, last := b[..|b| - 1], b[|b| - 1];
      UnclassifiedOfConcat(a, front);
      assert (a + b)[..|a + b| - 1] == a + front;
    }
  }

  /** What a plan leaves open: on a block one question; otherwise one for each node of unknown
      role, node by node in listing order. */
  lemma ResidualMeaning(env: Env, a: seq<CausalNode>, n: CausalNode, b: seq<CausalNode>)
    ensures var p := Plan(env, a + [n] + b).prediction;
      if p.blocked then p.residual == ["Resolve confounders before consequential action."]
      else p.residual == Unclassified(a) + Unclassified([n]) + Unclassified(b)
    ensures Unclassified([]) == []
    ensures Unclassified([n]) == if n.role == Unknown then ["Unclassified node: " + if n.summary == "" then n.id else n.summary] else []
  {
    UnclassifiedOfConcat(a, [n]);
    UnclassifiedOfConcat(a + [n], b);
    UnclassifiedOne(n);
    hide Unclassified, Plan;
    ResidualIs(env, a + [n] + b);
  }

  lemma UnclassifiedOne(n: CausalNode)
    ensures Unclassified([]) == []
    ensures Unclassified([n]) == if n.role == Unknown then ["Unclassified node: " + if n.summary == "" then n.id else n.summary] else []
  {
    assert [n][..0] == [];
  }

  lemma ResidualIs(env: Env, nodes: seq<CausalNode>)
    ensures var p := Plan(env, nodes).prediction;
      p.residual == if p.blocked then ["Resolve confounders before consequential action."] else Unclassified(nodes)
  {
    hide Unclassified, EvidenceWeight, ConfounderLoad, Actions, IdsOf, StringLE;
  }

  // ---- attributions ----

  /** What a coalition is squashed from. */
  function Argument(nodes: seq<CausalNode>): real {
    WeightIn(nodes, Evidence) + 0.5 * WeightIn(nodes, Intervention) - 2.0 * WeightIn(nodes, Confounder) + 0.5 * WeightIn(nodes, Unknown)
  }

  lemma OneMoreArgument(nodes: seq<CausalNode>, n: CausalNode)
    ensures Argument(nodes + [n]) == Argument(nodes) + Contribution(n)
  {
    var all := nodes + [n];
    assert all[..|all| - 1] == nodes;
    OneMoreWeight(all, Evidence);
    OneMoreWeight(all, Intervention);
    OneMoreWeight(all, Confounder);
    OneMoreWeight(all, Unknown);
    hide WeightIn;
  }

  lemma NoArgument()
    ensures Argument([]) == 0.0
  {
  }

  /** The members of a coalition, in the order of the players. */
  function Coalition(players: seq<CausalNode>, mask: nat): seq<CausalNode> {
    if players == [] then []
    else
      Coalition(players[..|players| - 1], mask)
      + if Bit(mask, |players| - 1) then [players[|players| - 1]] else []
  }

  lemma {:induction false} ScoreUpTo(players: seq<CausalNode>, mask: nat, k: nat)
    requires k <= |players|
    ensures Sum(Parts(players, mask), k) == Argument(Coalition(players[..k], mask))
  {
    hide Contribution, Bit, Argument;
    NoArgument();
    if k > 0 {
      ScoreUpTo(players, mask, k - 1);
      assert players[..k][..k - 1] == players[..k - 1];
      var before := Coalition(players[..k - 1], mask);
      OneMoreArgument(before, players[k - 1]);
      assert before + [] == before;
    }
  }

  /** The value of every coalition, whole or partial, in the weights of its members by role. */
  lemma CoalitionValue(sigma: real -> real, players: seq<CausalNode>, mask: nat)
    ensures var c := Coalition(players, mask);
      Game(sigma, players)(mask)
      == sigma(WeightIn(c, Evidence) + 0.5 * WeightIn(c, Intervention) - 2.0 * WeightIn(c, Confounder) + 0.5 * WeightIn(c, Unknown))
  {
    hide Coalition, WeightIn, Sum, Parts;
    ScoreUpTo(players, mask, |players|);
    assert players[..|players|] == players;
  }

  lemma {:induction false} TotalIsArgument(players: seq<CausalNode>)
    ensures TotalContribution(players) == Argument(players)
  {
    hide Argument, Contribution;
    if players == [] {
      NoArgument();
    } else {
      var front, last := players[..|players| - 1], players[|players| - 1];
      assert players == front + [last];
      OneMoreArgument(front, last);
      TotalIsArgument(front);
    }
  }

  lemma {:induction false} PlayersKeepWeights(nodes: seq<CausalNode>, role: Role)
    requires role != Outcome
    ensures WeightIn(Players(nodes), role) == WeightIn(nodes, role)
  {
    hide WeightIn;
    if nodes != [] {
      var front, last := nodes[..|nodes| - 1], nodes[|nodes| - 1];
      PlayersKeepWeights(front, role);
      OneMoreWeight(nodes, role);
      WeightOfConcat(Players(front), [last], role);
      WeightOfOne(last, role);
    }
  }

  /** What is handed out in all, for up to 64 players: the weights of the graph, each role at
      its rate, squashed, over the empty coalition's. */
  lemma AttributionsSum(env: Env, nodes: seq<CausalNode>)
    requires |Players(nodes)| <= 64
    ensures PhiTotal(Attributed(env, nodes))
         == env.sigma(WeightIn(nodes, Evidence) + 0.5 * WeightIn(nodes, Intervention)
                      - 2.0 * WeightIn(nodes, Confounder) + 0.5 * WeightIn(nodes, Unknown))
            - env.sigma(0.0)
  {
    hide WeightIn, Attributed, TotalContribution, Players, Argument;
    AttributionEfficiency(env, nodes);
    TotalIsArgument(Players(nodes));
    ArgumentOfPlayers(nodes);
  }

  lemma ArgumentOfPlayers(nodes: seq<CausalNode>)
    ensures Argument(Players(nodes))
         == WeightIn(nodes, Evidence) + 0.5 * WeightIn(nodes, Intervention)
            - 2.0 * WeightIn(nodes, Confounder) + 0.5 * WeightIn(nodes, Unknown)
  {
    hide WeightIn, Players;
    PlayersKeepWeights(nodes, Evidence);
    PlayersKeepWeights(nodes, Intervention);
    PlayersKeepWeights(nodes, Confounder);
    PlayersKeepWeights(nodes, Unknown);
  }

  lemma {:induction false} WeightOfAbsent(nodes: seq<CausalNode>, role: Role)
    requires forall n :: n in nodes ==> n.role != role
    ensures WeightIn(nodes, role) == 0.0
  {
    if nodes != [] {
      WeightOfAbsent(nodes[1..], role);
    }
  }

  /** Plans and attributions agree: without interventions the attributions share out exactly the
      confidence the plan projects, over that of knowing nothing. */
  lemma PlanAgreesWithAttributions(env: Env, nodes: seq<CausalNode>)
    requires |Players(nodes)| <= 64 && forall n :: n in nodes ==> n.role != Intervention
    ensures PhiTotal(Attributed(env, nodes)) == Plan(env, nodes).prediction.confidence - env.sigma(0.0)
  {
    hide WeightIn, Attributed, Players, Plan;
    AttributionsSum(env, nodes);
    ProjectionMeaning(env, nodes);
    WeightOfAbsent(nodes, Intervention);
    assert WeightIn(nodes, Evidence) + 0.5 * 0.0 - 2.0 * WeightIn(nodes, Confounder) + 0.5 * WeightIn(nodes, Unknown)
        == WeightIn(nodes, Evidence) + 0.5 * WeightIn(nodes, Unknown) - 2.0 * WeightIn(nodes, Confounder);
  }

  // ---- who plays, and how it is reported ----

  /** Beyond 64 players the heaviest stay: nobody left out is heavier than anyone kept, and of
      equal weights the earlier names stay. */
  lemma HeaviestStay(players: seq<CausalNode>) returns (left: seq<CausalNode>)
    ensures |players| <= 64 ==> Capped(players) == players && left == []
    ensures |players| > 64 ==> |Capped(players)| == 64
    ensures multiset(players) == multiset(Capped(players)) + multiset(left)
    ensures forall a, b :: a in Capped(players) && b in left ==>
      a.weight > b.weight || (a.weight == b.weight && StringLE(a.id, b.id))
  {
    hide StringLE, Sort;
    if |players| > 64 {
      var s := Sort(players, HeavierFirst);
      left := s[64..];
      SortPermutes(players, HeavierFirst);
      HeavierOrders();
      SortSorts(players, HeavierFirst);
      assert s == s[..64] + s[64..];
      forall a, b | a in s[..64] && b in left ensures HeavierFirst(a, b) {
        var i :| 0 <= i < 64 && s[..64][i] == a;
        var j :| 0 <= j < |left| && left[j] == b;
        assert s[i] == a && s[64 + j] == b;
      }
    } else {
      left := [];
    }
  }

  lemma HeavierOrders()
    ensures TotalPreorder(HeavierFirst)
  {
    StringOrder();
    hide StringLE;
  }

  /** Each row is a player's, under its name and role, and is marked as an estimate exactly from
      15 players on; up to 14 it is the Shapley value of the coalitions' values. */
  lemma RowMeaning(env: Env, nodes: seq<CausalNode>, k: nat) returns (i: nat)
    requires k < |Attributed(env, nodes)|
    ensures var players, row := Capped(Players(nodes)), Attributed(env, nodes)[k];
      && i < |players| && row.id == players[i].id && row.role == players[i].role && row.rank == k + 1
      && (row.approximate <==> |players| > 14)
      && (|players| <= 14 ==> row.phi == ExactPhi(Game(env.sigma, players), |players|, i))
      && (|players| > 14 ==>
            row.phi == Sum(Row(Sampling.Rounds(Game(env.sigma, players), |players|, SeedDraws(env, players)), i), 256) / 256.0)
  {
    hide Attributed, Capped, Players, ExactPhi, Game, SeedDraws, Sum, Row, Sampling.Rounds;
    i := AttributionOfPlayer(env, nodes, k);
  }
}
