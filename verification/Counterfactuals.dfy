/** What a claim can and cannot move: the original run and the replay side by side. */
module Counterfactuals {
  import opened Text
  import opened Sorting
  import opened Causal
  import opened ChainText
  import opened Pearl
  import opened Ranking
  import opened Dispute

  // ---- evidence shifts every score alike ----

  /** Candidate order before squashing, with the evidence left out. */
  predicate RawLE(env: Env, load: real, a: CausalNode, b: CausalNode) {
    var x, y := RawScore(env, a, 0.0, load), RawScore(env, b, 0.0, load);
    x > y || (x == y && StringLE(a.id, b.id))
  }

  function RawOrder(env: Env, load: real): (CausalNode, CausalNode) -> bool {
    (a: CausalNode, b: CausalNode) => RawLE(env, load, a, b)
  }

  function ToCandidate(env: Env, weight: real, load: real): CausalNode -> ActionCandidate {
    (n: CausalNode) => Candidate(env, n, weight, load)
  }

  lemma BetterIsRaw(env: Env, weight: real, load: real, a: CausalNode, b: CausalNode)
    requires Squashing(env.sigma)
    ensures Better(Candidate(env, a, weight, load), Candidate(env, b, weight, load)) <==> RawLE(env, load, a, b)
  {
    hide StringLE, Risk;
    var x, y := RawScore(env, a, weight, load), RawScore(env, b, weight, load);
    SquashingMonotone(env.sigma, x, y);
    SquashingMonotone(env.sigma, y, x);
  }

  /** The ranking of actions is fixed before the evidence is weighed. */
  lemma RankedByRaw(env: Env, nodes: seq<CausalNode>)
    requires Squashing(env.sigma)
    ensures var w, l := EvidenceWeight(nodes), ConfounderLoad(nodes);
      Ranked(env, nodes) == Map(ToCandidate(env, w, l), Sort(Interventions(nodes), RawOrder(env, l)))
  {
    hide Better, RawLE, Candidate, EvidenceWeight, ConfounderLoad, Squashing;
    var w, l, ns := EvidenceWeight(nodes), ConfounderLoad(nodes), Interventions(nodes);
    var f := ToCandidate(env, w, l);
    forall x, y | x in ns && y in ns ensures RawOrder(env, l)(x, y) <==> Better(f(x), f(y)) {
      BetterIsRaw(env, w, l, x, y);
    }
    SortCommutesWithMap(f, ns, RawOrder(env, l), Better);
    assert Candidates(env, ns, w, l) == Map(f, ns);
  }

  /** Two graphs with the same interventions and the same confounder load recommend the
      same action and block alike; the one with less evidence is never the more confident. */
  lemma EvidenceNeverDecides(env: Env, a: seq<CausalNode>, b: seq<CausalNode>)
    requires Squashing(env.sigma)
    requires Interventions(a) == Interventions(b) && ConfounderLoad(a) == ConfounderLoad(b)
    ensures var p, q := Plan(env, a).prediction, Plan(env, b).prediction;
      && p.recommended == q.recommended
      && p.blocked == q.blocked
      && (EvidenceWeight(a) <= EvidenceWeight(b) <==> p.confidence <= q.confidence)
  {
    hide Plan, Better, RawLE, EvidenceWeight, ConfounderLoad, Interventions, Risk, Squashing;
    PlanMeaning(env, a);
    PlanMeaning(env, b);
    RankedByRaw(env, a);
    RankedByRaw(env, b);
    var l := ConfounderLoad(a);
    var s := Sort(Interventions(a), RawOrder(env, l));
    SquashingMonotone(env.sigma, EvidenceWeight(a) - 2.0 * l, EvidenceWeight(b) - 2.0 * l);
    if s != [] {
      SquashingMonotone(env.sigma, RawScore(env, s[0], EvidenceWeight(a), l), RawScore(env, s[0], EvidenceWeight(b), l));
    }
  }

  // ---- who leads, and how the load moves it ----

  /** No intervention beats it before squashing, whatever the evidence. */
  ghost predicate Leads(env: Env, nodes: seq<CausalNode>, n: CausalNode, load: real) {
    && n in nodes && n.role == Intervention
    && forall k :: k in nodes && k.role == Intervention ==> RawLE(env, load, n, k)
  }

  lemma RawTransitive(env: Env, load: real, a: CausalNode, b: CausalNode, c: CausalNode)
    ensures RawLE(env, load, a, b) || RawLE(env, load, b, a)
    ensures RawLE(env, load, a, b) && RawLE(env, load, b, c) ==> RawLE(env, load, a, c)
  {
    StringOrder();
    hide StringLE, RawScore;
  }

  lemma {:induction false} SomeoneLeads(env: Env, nodes: seq<CausalNode>, load: real)
    requires exists n :: n in nodes && n.role == Intervention
    ensures exists n :: Leads(env, nodes, n, load)
  {
    hide RawLE;
    var first, rest := nodes[0], nodes[1..];
    assert nodes == [first] + rest;
    RawTransitive(env, load, first, first, first);
    if exists n :: n in rest && n.role == Intervention {
      SomeoneLeads(env, rest, load);
      var n :| Leads(env, rest, n, load);
      RawTransitive(env, load, first, n, n);
      if first.role == Intervention && RawLE(env, load, first, n) {
        forall k | k in nodes && k.role == Intervention ensures RawLE(env, load, first, k) {
          RawTransitive(env, load, first, n, k);
        }
        assert Leads(env, nodes, first, load);
      } else {
        assert Leads(env, nodes, n, load);
      }
    } else {
      assert Leads(env, nodes, first, load);
    }
  }

  /** The leader at the graph's own load is what an unblocked plan recommends, at its score. */
  lemma LeaderIsRecommended(env: Env, nodes: seq<CausalNode>, n: CausalNode)
    requires Squashing(env.sigma) && Leads(env, nodes, n, ConfounderLoad(nodes)) && ConfounderLoad(nodes) < CONFOUNDER_BLOCK_THRESHOLD
    ensures var p := Plan(env, nodes).prediction;
      p.recommended == n.id && p.confidence == env.sigma(RawScore(env, n, EvidenceWeight(nodes), ConfounderLoad(nodes)))
  {
    hide Plan, Better, RawLE, EvidenceWeight, ConfounderLoad, Risk, RawScore, Squashing, Ranked;
    PlanMeaning(env, nodes);
    RecommendedIsBest(env, nodes, n);
    var m := RankedAreInterventions(env, nodes, 0);
    BetterIsRaw(env, EvidenceWeight(nodes), ConfounderLoad(nodes), n, m);
    BetterBothWays(Ranked(env, nodes)[0], Candidate(env, n, EvidenceWeight(nodes), ConfounderLoad(nodes)));
  }

  lemma BetterBothWays(a: ActionCandidate, b: ActionCandidate)
    requires Better(a, b) && Better(b, a)
    ensures a.score == b.score && a.id == b.id
  {
    StringOrder();
    hide StringLE;
  }

  /** Where no risk is announced the load moves every score alike, so it never moves the lead. */
  lemma LeaderIgnoresLoad(env: Env, nodes: seq<CausalNode>, n: CausalNode, load: real, load': real)
    requires forall k :: k in nodes && k.role == Intervention ==> "risk" !in k.meta
    ensures Leads(env, nodes, n, load) <==> Leads(env, nodes, n, load')
  {
    if n in nodes && n.role == Intervention {
      forall k | k in nodes && k.role == Intervention ensures RawLE(env, load, n, k) <==> RawLE(env, load', n, k) {
        SameAtAnyLoad(env, n, k, load, load');
      }
    }
    hide RawLE;
  }

  lemma SameAtAnyLoad(env: Env, a: CausalNode, b: CausalNode, load: real, load': real)
    requires "risk" !in a.meta && "risk" !in b.meta
    ensures RawLE(env, load, a, b) <==> RawLE(env, load', a, b)
  {
    hide StringLE;
  }

  // ---- replacing one node ----

  lemma {:induction false} ReplaceSums(nodes: seq<CausalNode>, k: nat, n: CausalNode)
    requires k < |nodes|
    ensures EvidenceWeight(nodes[k := n]) == EvidenceWeight(nodes) + EvidenceTerm(n) - EvidenceTerm(nodes[k])
    ensures ConfounderLoad(nodes[k := n]) == ConfounderLoad(nodes) + LoadTerm(n) - LoadTerm(nodes[k])
    decreases |nodes|
  {
    hide EvidenceTerm, LoadTerm;
    var r, front := nodes[k := n], nodes[..|nodes| - 1];
    if k == |nodes| - 1 {
      assert r[..|r| - 1] == front;
    } else {
      ReplaceSums(front, k, n);
      assert r[..|r| - 1] == front[k := n];
    }
  }

  lemma {:induction false} ReplaceKeepsInterventions(nodes: seq<CausalNode>, k: nat, n: CausalNode)
    requires k < |nodes| && nodes[k].role != Intervention && n.role != Intervention
    ensures Interventions(nodes[k := n]) == Interventions(nodes)
    decreases |nodes|
  {
    var r, front := nodes[k := n], nodes[..|nodes| - 1];
    if k == |nodes| - 1 {
      assert r[..|r| - 1] == front;
    } else {
      ReplaceKeepsInterventions(front, k, n);
      assert r[..|r| - 1] == front[k := n];
    }
  }

  // ---- a verdict as the program builds it ----

  /** The verdict carries its graph, and its plan and attribution were computed from it. */
  ghost predicate Consistent(env: Env, v: Verdict, nodes: seq<CausalNode>) {
    && nodes != []
    && v.views.graph == Some(CausalGraph(nodes))
    && v.plan == Planned(env, nodes)
    && v.attribution == Attributed(env, nodes)
  }

  lemma PlanConfidencePositive(env: Env, nodes: seq<CausalNode>)
    requires Squashing(env.sigma)
    ensures 0.0 < Plan(env, nodes).prediction.confidence < 1.0
  {
    hide EvidenceWeight, ConfounderLoad, Better;
    PlanMeaning(env, nodes);
    if Ranked(env, nodes) != [] {
      var n := RankedAreInterventions(env, nodes, 0);
    }
  }

  /** Its original world is the replay of its own graph. */
  lemma ConsistentOriginal(env: Env, v: Verdict, nodes: seq<CausalNode>, d: Claim)
    requires Squashing(env.sigma) && Consistent(env, v, nodes)
    ensures Evaluated(env, v, d).original == Replayed(env, nodes)
    ensures Evaluated(env, v, d).applied == ClaimEffect(nodes, d).applied
    ensures var cf, r := ClaimEffect(nodes, d).nodes, Evaluated(env, v, d);
      if cf == [] then
        r.counterfactual == NO_WORLD && r.delta == -r.original.confidence && !r.blockedFlipped
        && r.recommendationFlipped == (r.original.recommended != "")
        && r.topChanged == (r.original.top != "")
      else
        && r.counterfactual == Replayed(env, cf)
        && r.delta == r.counterfactual.confidence - r.original.confidence
        && r.recommendationFlipped == (r.original.recommended != r.counterfactual.recommended)
        && r.topChanged == (r.original.top != r.counterfactual.top)
        && r.blockedFlipped == (r.original.blocked != r.counterfactual.blocked)
  {
    hide Plan, Attributed, ClaimEffect, Flat;
    PlanConfidencePositive(env, nodes);
  }

  // ---- claims ----

  lemma StaleEffect(nodes: seq<CausalNode>, d: Claim)
    requires d.ground == EvidenceStale && d.target != "" && IndexOfNode(nodes, d.target) < |nodes|
    ensures var k := IndexOfNode(nodes, d.target);
      ClaimEffect(nodes, d) == Effect(nodes[k := Staled(nodes[k], d)], true)
  {
    hide Staled, IndexOfNode;
  }

  lemma BlockedEffect(nodes: seq<CausalNode>, d: Claim)
    requires d.ground == ActionBlocked && d.target != "" && IndexOfNode(nodes, d.target) < |nodes|
    ensures var k := IndexOfNode(nodes, d.target);
      ClaimEffect(nodes, d) == Effect(nodes[..k] + nodes[k + 1..], true)
  {
    hide IndexOfNode;
  }

  lemma ConfounderEffect(nodes: seq<CausalNode>, d: Claim)
    requires d.ground == MissingConfounder && Trim(d.addedSummary) != ""
    ensures ClaimEffect(nodes, d) == Effect(nodes + [AddedNode(nodes, d)], true)
    ensures ConfounderLoad(nodes + [AddedNode(nodes, d)]) == ConfounderLoad(nodes) + AddedWeight(d)
    ensures EvidenceWeight(nodes + [AddedNode(nodes, d)]) == EvidenceWeight(nodes)
  {
    hide IndexOfNode, SimpleSlug;
    var r := nodes + [AddedNode(nodes, d)];
    assert r[..|r| - 1] == nodes;
  }

  lemma NoEffect(nodes: seq<CausalNode>, d: Claim)
    requires !ClaimEffect(nodes, d).applied
    ensures ClaimEffect(nodes, d) == Effect(nodes, false)
  {
    hide IndexOfNode, AddedNode, Staled;
  }

  lemma StaledLowers(n: CausalNode, d: Claim)
    requires n.weight >= 0.0
    ensures Staled(n, d).role == n.role
    ensures EvidenceTerm(Staled(n, d)) <= EvidenceTerm(n)
    ensures n.role in {Evidence, Unknown} ==> LoadTerm(Staled(n, d)) == LoadTerm(n)
  {
    var m := Staled(n, d);
    assert m.weight <= n.weight by {
      ScaledDown(n.weight, StaleFactor(d));
    }
    assert m.role == n.role;
    hide Staled, StaleFactor;
  }

  lemma ScaledDown(w: real, f: real)
    requires w >= 0.0 && 0.0 < f < 1.0
    ensures w * f <= w
  {
    assert w * (1.0 - f) >= 0.0;
  }

  /** The replayed prediction after one evidence node is discounted. */
  lemma StaleReplay(env: Env, nodes: seq<CausalNode>, k: nat, d: Claim)
    requires Squashing(env.sigma) && k < |nodes|
    requires nodes[k].role in {Evidence, Unknown} && nodes[k].weight >= 0.0
    ensures var p, q := Plan(env, nodes[k := Staled(nodes[k], d)]).prediction, Plan(env, nodes).prediction;
      p.recommended == q.recommended && p.blocked == q.blocked && p.confidence <= q.confidence
  {
    hide Plan, EvidenceTerm, LoadTerm, Squashing, Staled, EvidenceWeight, ConfounderLoad, Interventions;
    var n := Staled(nodes[k], d);
    StaledLowers(nodes[k], d);
    ReplaceSums(nodes, k, n);
    ReplaceKeepsInterventions(nodes, k, n);
    EvidenceNeverDecides(env, nodes[k := n], nodes);
  }

  /** Discounting evidence flips neither the recommendation nor the block, and never raises
      confidence. */
  lemma StaleEvidenceOnlyLowers(env: Env, v: Verdict, nodes: seq<CausalNode>, d: Claim)
    requires Squashing(env.sigma) && Consistent(env, v, nodes)
    requires d.ground == EvidenceStale && d.target != "" && IndexOfNode(nodes, d.target) < |nodes|
    requires nodes[IndexOfNode(nodes, d.target)].role in {Evidence, Unknown}
    requires nodes[IndexOfNode(nodes, d.target)].weight >= 0.0
    ensures Evaluated(env, v, d).applied
    ensures !Evaluated(env, v, d).recommendationFlipped && !Evaluated(env, v, d).blockedFlipped
    ensures Evaluated(env, v, d).delta <= 0.0
  {
    hide Plan, Attributed, ClaimEffect, Evaluated, IndexOfNode, Squashing, Staled, Consistent;
    ConsistentOriginal(env, v, nodes, d);
    StaleEffect(nodes, d);
    StaleReplay(env, nodes, IndexOfNode(nodes, d.target), d);
  }

  /** A claim that changes nothing swings nothing. */
  lemma NoOpClaimSwingsNothing(env: Env, v: Verdict, nodes: seq<CausalNode>, d: Claim)
    requires Squashing(env.sigma) && Consistent(env, v, nodes)
    requires !ClaimEffect(nodes, d).applied
    ensures !Evaluated(env, v, d).applied && Evaluated(env, v, d).delta == 0.0
    ensures !Evaluated(env, v, d).recommendationFlipped && !Evaluated(env, v, d).blockedFlipped
    ensures !Evaluated(env, v, d).topChanged
  {
    assert nodes != [];
    hide Replayed, ClaimEffect, Evaluated, Squashing, Consistent;
    ConsistentOriginal(env, v, nodes, d);
    NoEffect(nodes, d);
  }

  /** With the recommended node gone the plan chooses another, or none. */
  lemma WithoutRecommended(env: Env, nodes: seq<CausalNode>, k: nat)
    requires UniqueIds(nodes) && k < |nodes| && nodes[k].id != ""
    ensures Plan(env, nodes[..k] + nodes[k + 1..]).prediction.recommended != nodes[k].id
  {
    hide Plan, Ranked, Better, EvidenceWeight, ConfounderLoad, UniqueIds;
    var cf := nodes[..k] + nodes[k + 1..];
    PlanMeaning(env, cf);
    WithoutItsId(nodes, k);
    if Ranked(env, cf) != [] {
      var m := RankedAreInterventions(env, cf, 0);
      assert m in cf;
    }
  }

  lemma WithoutItsId(nodes: seq<CausalNode>, k: nat)
    requires UniqueIds(nodes) && k < |nodes|
    ensures forall n :: n in nodes[..k] + nodes[k + 1..] ==> n.id != nodes[k].id
  {
    var cf := nodes[..k] + nodes[k + 1..];
    assert forall j :: 0 <= j < |cf| ==> cf[j] == nodes[if j < k then j else j + 1];
  }

  lemma RecommendedIsNode(env: Env, nodes: seq<CausalNode>) returns (n: CausalNode)
    requires Plan(env, nodes).prediction.recommended != ""
    ensures n in nodes && n.role == Intervention && n.id == Plan(env, nodes).prediction.recommended
  {
    hide Plan, Better, EvidenceWeight, ConfounderLoad;
    PlanMeaning(env, nodes);
    n := RankedAreInterventions(env, nodes, 0);
  }

  lemma PresentIsFound(nodes: seq<CausalNode>, n: CausalNode)
    requires n in nodes
    ensures IndexOfNode(nodes, n.id) < |nodes|
  {
    var j :| 0 <= j < |nodes| && nodes[j] == n;
  }

  /** Without the recommended action the plan must choose another, or none. */
  lemma BlockingRecommendedFlips(env: Env, v: Verdict, nodes: seq<CausalNode>, d: Claim)
    requires Squashing(env.sigma) && Consistent(env, v, nodes) && UniqueIds(nodes)
    requires d.ground == ActionBlocked && d.target != "" && d.target == Plan(env, nodes).prediction.recommended
    ensures Evaluated(env, v, d).applied && Evaluated(env, v, d).recommendationFlipped
  {
    hide Plan, Attributed, ClaimEffect, Evaluated, IndexOfNode, Squashing, Consistent, UniqueIds;
    ConsistentOriginal(env, v, nodes, d);
    var n := RecommendedIsNode(env, nodes);
    PresentIsFound(nodes, n);
    BlockedEffect(nodes, d);
    WithoutRecommended(env, nodes, IndexOfNode(nodes, d.target));
  }

  /** A missing confounder flips the block flag exactly when its weight carries the load
      across the threshold. */
  lemma MissingConfounderFlips(env: Env, v: Verdict, nodes: seq<CausalNode>, d: Claim)
    requires Squashing(env.sigma) && Consistent(env, v, nodes)
    requires d.ground == MissingConfounder && Trim(d.addedSummary) != ""
    ensures Evaluated(env, v, d).applied
    ensures Evaluated(env, v, d).blockedFlipped
      <==> ConfounderLoad(nodes) < CONFOUNDER_BLOCK_THRESHOLD <= ConfounderLoad(nodes) + AddedWeight(d)
  {
    hide Plan, Attributed, ClaimEffect, Evaluated, Squashing, Consistent, ConfounderLoad, EvidenceWeight, AddedNode;
    ConsistentOriginal(env, v, nodes, d);
    ConfounderEffect(nodes, d);
    PlanMeaning(env, nodes);
    PlanMeaning(env, nodes + [AddedNode(nodes, d)]);
  }

  /** On a verdict that is blocked already, a missing confounder flips nothing: it only takes
      confidence, by as much as its weight moves the squashed score. */
  lemma BlockedOnlyLosesConfidence(env: Env, v: Verdict, nodes: seq<CausalNode>, d: Claim)
    requires Squashing(env.sigma) && Consistent(env, v, nodes)
    requires d.ground == MissingConfounder && Trim(d.addedSummary) != ""
    requires ConfounderLoad(nodes) >= CONFOUNDER_BLOCK_THRESHOLD
    ensures var r, e, l := Evaluated(env, v, d), EvidenceWeight(nodes), ConfounderLoad(nodes);
      && r.applied && !r.recommendationFlipped && !r.blockedFlipped
      && r.delta == env.sigma(e - 2.0 * (l + AddedWeight(d))) - env.sigma(e - 2.0 * l)
      && -1.0 < r.delta < 0.0
  {
    hide Plan, Attributed, ClaimEffect, Evaluated, Squashing, Consistent, ConfounderLoad, EvidenceWeight, AddedNode, Ranked;
    ConsistentOriginal(env, v, nodes, d);
    ConfounderEffect(nodes, d);
    PlanMeaning(env, nodes);
    PlanMeaning(env, nodes + [AddedNode(nodes, d)]);
    var e, l := EvidenceWeight(nodes), ConfounderLoad(nodes);
    SquashedApart(env.sigma, e - 2.0 * (l + AddedWeight(d)), e - 2.0 * l);
  }

  lemma SquashedApart(sigma: real -> real, x: real, y: real)
    requires Squashing(sigma) && x < y
    ensures 0.0 < sigma(y) - sigma(x) < 1.0
  {
  }

  /** In general a missing confounder is judged by the two plans. */
  lemma ConfounderByPlans(env: Env, v: Verdict, nodes: seq<CausalNode>, d: Claim)
    requires Squashing(env.sigma) && Consistent(env, v, nodes)
    requires d.ground == MissingConfounder && Trim(d.addedSummary) != ""
    ensures var r, p, q := Evaluated(env, v, d), Plan(env, nodes).prediction, Plan(env, nodes + [AddedNode(nodes, d)]).prediction;
      && r.applied && r.delta == q.confidence - p.confidence
      && (r.recommendationFlipped <==> p.recommended != q.recommended)
  {
    hide Plan, Attributed, ClaimEffect, Evaluated, Squashing, Consistent, ConfounderLoad, EvidenceWeight, AddedNode;
    ConsistentOriginal(env, v, nodes, d);
    ConfounderEffect(nodes, d);
  }
}
