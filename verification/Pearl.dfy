/** Abduction, action, prediction over a causal graph (pearl_loop.go). */
module Pearl {
  import opened Text
  import opened Sorting
  import opened Causal

  const CONFOUNDER_BLOCK_THRESHOLD := 0.6
  const INTERVENTION_RISK_FLOOR := 0.05

  datatype Hypothesis = Hypothesis(
    evidence: seq<string>, confounders: seq<string>, evidenceWeight: real, confounderLoad: real)

  datatype ActionCandidate = ActionCandidate(id: string, text: string, score: real, risk: real, recommended: bool)

  /** `recommended` is "" when no action is. */
  datatype Prediction = Prediction(recommended: string, confidence: real, residual: seq<string>, blocked: bool)

  datatype PearlPlan = PearlPlan(hypothesis: Hypothesis, actions: seq<ActionCandidate>, prediction: Prediction)

  // ---- abduction ----

  function EvidenceTerm(n: CausalNode): real {
    match n.role
    case Evidence => n.weight
    case Unknown => 0.5 * n.weight
    case _ => 0.0
  }

  function LoadTerm(n: CausalNode): real {
    if n.role == Confounder then n.weight else 0.0
  }

  function EvidenceWeight(nodes: seq<CausalNode>): real {
    if nodes == [] then 0.0 else EvidenceWeight(nodes[..|nodes| - 1]) + EvidenceTerm(nodes[|nodes| - 1])
  }

  function ConfounderLoad(nodes: seq<CausalNode>): real {
    if nodes == [] then 0.0 else ConfounderLoad(nodes[..|nodes| - 1]) + LoadTerm(nodes[|nodes| - 1])
  }

  /** IDs of the nodes in one of two roles, in listing order. */
  function IdsOf(nodes: seq<CausalNode>, a: Role, b: Role): seq<string> {
    if nodes == [] then []
    else
      var last := nodes[|nodes| - 1];
      IdsOf(nodes[..|nodes| - 1], a, b) + if last.role == a || last.role == b then [last.id] else []
  }

  function Abduced(nodes: seq<CausalNode>): Hypothesis {
    Hypothesis(Sort(IdsOf(nodes, Evidence, Unknown), StringLE), Sort(IdsOf(nodes, Confounder, Confounder), StringLE),
               EvidenceWeight(nodes), ConfounderLoad(nodes))
  }

  method Abduce(graph: CausalGraph) returns (h: Hypothesis)
    ensures h == Abduced(graph.nodes)
  {
    var nodes := graph.nodes;
    var evidence, confounders := [], [];
    var evidenceWeight, confounderLoad := 0.0, 0.0;
    for i := 0 to |nodes|
      invariant evidence == IdsOf(nodes[..i], Evidence, Unknown)
      invariant confounders == IdsOf(nodes[..i], Confounder, Confounder)
      invariant evidenceWeight == EvidenceWeight(nodes[..i]) && confounderLoad == ConfounderLoad(nodes[..i])
    {
      assert nodes[..i + 1][..i] == nodes[..i];
      var n := nodes[i];
      match n.role {
        case Evidence =>
          evidence := evidence + [n.id];
          evidenceWeight := evidenceWeight + n.weight;
        case Confounder =>
          confounders := confounders + [n.id];
          confounderLoad := confounderLoad + n.weight;
        case Unknown =>
          evidence := evidence + [n.id];
          evidenceWeight := evidenceWeight + 0.5 * n.weight;
        case _ =>
      }
    }
    assert nodes[..|nodes|] == nodes;
    h := Hypothesis(Sort(evidence, StringLE), Sort(confounders, StringLE), evidenceWeight, confounderLoad);
  }

  // ---- action ----

  function NodeLabel(n: CausalNode): string {
    if n.summary != "" then n.summary else n.id
  }

  function Risk(env: Env, n: CausalNode, load: real): real {
    var floor := INTERVENTION_RISK_FLOOR + load * 0.5;
    if "risk" in n.meta && env.parse(n.meta["risk"]) > floor then env.parse(n.meta["risk"]) else floor
  }

  /** What the squashing function is applied to. */
  function RawScore(env: Env, n: CausalNode, weight: real, load: real): real {
    weight - 2.0 * load + 0.5 * n.weight - Risk(env, n, load)
  }

  function Candidate(env: Env, n: CausalNode, weight: real, load: real): ActionCandidate {
    ActionCandidate(n.id, NodeLabel(n), env.sigma(RawScore(env, n, weight, load)), Risk(env, n, load), false)
  }

  function Interventions(nodes: seq<CausalNode>): (r: seq<CausalNode>)
    ensures forall n :: n in r <==> n in nodes && n.role == Intervention
  {
    if nodes == [] then []
    else
      var last := nodes[|nodes| - 1];
      Interventions(nodes[..|nodes| - 1]) + if last.role == Intervention then [last] else []
  }

  function Candidates(env: Env, ns: seq<CausalNode>, weight: real, load: real): (r: seq<ActionCandidate>)
    ensures |r| == |ns|
    ensures forall i :: 0 <= i < |ns| ==> r[i] == Candidate(env, ns[i], weight, load)
  {
    seq(|ns|, i requires 0 <= i < |ns| => Candidate(env, ns[i], weight, load))
  }

  /** Best score first, ties by ID. */
  predicate Better(a: ActionCandidate, b: ActionCandidate) {
    a.score > b.score || (a.score == b.score && StringLE(a.id, b.id))
  }

  lemma BetterOrders()
    ensures TotalPreorder(Better)
  {
    StringOrder();
    hide StringLE;
  }

  function RecommendFirst(cs: seq<ActionCandidate>, load: real): (r: seq<ActionCandidate>)
    ensures |r| == |cs|
  {
    if |cs| > 0 && load < CONFOUNDER_BLOCK_THRESHOLD then cs[0 := cs[0].(recommended := true)] else cs
  }

  function Actions(env: Env, nodes: seq<CausalNode>, h: Hypothesis): seq<ActionCandidate> {
    RecommendFirst(Sort(Candidates(env, Interventions(nodes), h.evidenceWeight, h.confounderLoad), Better), h.confounderLoad)
  }

  /** One candidate: a parsed risk counts only above the floor that the load raises. */
  method ScoreCandidate(env: Env, n: CausalNode, h: Hypothesis) returns (c: ActionCandidate)
    ensures c == Candidate(env, n, h.evidenceWeight, h.confounderLoad)
  {
    hide NodeLabel;
    var risk := INTERVENTION_RISK_FLOOR + h.confounderLoad * 0.5;
    if "risk" in n.meta {
      var metaRisk := env.parse(n.meta["risk"]);
      if metaRisk > risk {
        risk := metaRisk;
      }
    }
    var score := env.sigma(h.evidenceWeight - 2.0 * h.confounderLoad + 0.5 * n.weight - risk);
    c := ActionCandidate(n.id, NodeLabel(n), score, risk, false);
  }

  /** A heavier confounder load makes every intervention riskier or as risky, and always
      worse: what the risk does not show, the doubled load takes from the score. */
  lemma LoadCostsScore(env: Env, n: CausalNode, weight: real, less: real, more: real)
    requires Squashing(env.sigma) && less < more
    ensures var light, heavy := Candidate(env, n, weight, less), Candidate(env, n, weight, more);
      && 0.0 < heavy.score < light.score < 1.0
      && light.risk <= heavy.risk <= light.risk + 0.5 * (more - less)
      && light.risk >= INTERVENTION_RISK_FLOOR + 0.5 * less
  {
    var light, heavy := RawScore(env, n, weight, less), RawScore(env, n, weight, more);
    assert heavy < light;
    SquashingMonotone(env.sigma, heavy, light);
    SquashingMonotone(env.sigma, light, heavy);
  }

  ghost predicate SameAnnouncedRisk(n: CausalNode, m: CausalNode) {
    ("risk" in n.meta <==> "risk" in m.meta) && ("risk" in n.meta ==> n.meta["risk"] == m.meta["risk"])
  }

  /** At equal announced risk one node outscores another, on whatever evidence each has,
      exactly when the evidence and half the node's own weight add up to more. */
  lemma ScoreFollowsStrength(env: Env, n: CausalNode, m: CausalNode, weight: real, weight': real, load: real)
    requires Squashing(env.sigma) && SameAnnouncedRisk(n, m)
    ensures Candidate(env, n, weight, load).score < Candidate(env, m, weight', load).score
       <==> weight + 0.5 * n.weight < weight' + 0.5 * m.weight
  {
    var a, b := RawScore(env, n, weight, load), RawScore(env, m, weight', load);
    assert Risk(env, n, load) == Risk(env, m, load);
    SquashingMonotone(env.sigma, b, a);
    hide Risk;
  }

  lemma NoCandidates(env: Env, h: Hypothesis)
    ensures Candidates(env, Interventions([]), h.evidenceWeight, h.confounderLoad) == []
  {
  }

  lemma OneMoreCandidate(env: Env, nodes: seq<CausalNode>, i: nat, h: Hypothesis)
    requires i < |nodes|
    ensures var w, l := h.evidenceWeight, h.confounderLoad;
      Candidates(env, Interventions(nodes[..i + 1]), w, l)
      == Candidates(env, Interventions(nodes[..i]), w, l) + if nodes[i].role == Intervention then [Candidate(env, nodes[i], w, l)] else []
  {
    hide Candidate;
    assert nodes[..i + 1][..i] == nodes[..i];
  }

  method EnumerateActions(env: Env, graph: CausalGraph, h: Hypothesis) returns (r: seq<ActionCandidate>)
    ensures r == Actions(env, graph.nodes, h)
  {
    hide Better, Candidates, Candidate, Interventions, Sort;
    var nodes := graph.nodes;
    var candidates: seq<ActionCandidate> := [];
    NoCandidates(env, h);
    for i := 0 to |nodes|
      invariant candidates == Candidates(env, Interventions(nodes[..i]), h.evidenceWeight, h.confounderLoad)
    {
      OneMoreCandidate(env, nodes, i, h);
      var n := nodes[i];
      if n.role != Intervention {
        continue;
      }
      var candidate := ScoreCandidate(env, n, h);
      candidates := candidates + [candidate];
    }
    assert nodes[..|nodes|] == nodes;
    r := Sort(candidates, Better);
    if |r| > 0 && h.confounderLoad < CONFOUNDER_BLOCK_THRESHOLD {
      r := r[0 := r[0].(recommended := true)];
    }
  }

  // ---- prediction ----

  function Unclassified(nodes: seq<CausalNode>): seq<string> {
    if nodes == [] then []
    else
      var last := nodes[|nodes| - 1];
      Unclassified(nodes[..|nodes| - 1]) + if last.role == Unknown then ["Unclassified node: " + NodeLabel(last)] else []
  }

  /** Position of the first recommended candidate, or |cs|. */
  function FirstRecommended(cs: seq<ActionCandidate>): (i: nat)
    ensures i <= |cs|
    ensures i < |cs| ==> cs[i].recommended
    ensures forall k :: 0 <= k < i ==> !cs[k].recommended
  {
    if cs == [] || cs[0].recommended then 0 else 1 + FirstRecommended(cs[1..])
  }

  function Predicted(env: Env, nodes: seq<CausalNode>, h: Hypothesis, cs: seq<ActionCandidate>): Prediction {
    var base := env.sigma(h.evidenceWeight - 2.0 * h.confounderLoad);
    if h.confounderLoad >= CONFOUNDER_BLOCK_THRESHOLD then
      Prediction("", base, ["Resolve confounders before consequential action."], true)
    else
      var i := FirstRecommended(cs);
      if i < |cs| then Prediction(cs[i].id, cs[i].score, Unclassified(nodes), false)
      else Prediction("", base, Unclassified(nodes), false)
  }

  method Predict(env: Env, graph: CausalGraph, h: Hypothesis, cs: seq<ActionCandidate>) returns (pred: Prediction)
    ensures pred == Predicted(env, graph.nodes, h, cs)
  {
    pred := Prediction("", env.sigma(h.evidenceWeight - 2.0 * h.confounderLoad), [], false);
    if h.confounderLoad >= CONFOUNDER_BLOCK_THRESHOLD {
      pred := pred.(blocked := true, residual := pred.residual + ["Resolve confounders before consequential action."]);
      return;
    }
    var i := 0;
    while i < |cs| && !cs[i].recommended
      invariant 0 <= i <= |cs| && forall k :: 0 <= k < i ==> !cs[k].recommended
    {
      i := i + 1;
    }
    assert i == FirstRecommended(cs);
    if i < |cs| {
      pred := pred.(recommended := cs[i].id, confidence := cs[i].score);
    }
    var nodes := graph.nodes;
    for k := 0 to |nodes|
      invariant pred.residual == Unclassified(nodes[..k])
      invariant pred.(residual := []) == Predicted(env, nodes, h, cs).(residual := [])
    {
      assert nodes[..k + 1][..k] == nodes[..k];
      if nodes[k].role == Unknown {
        pred := pred.(residual := pred.residual + ["Unclassified node: " + NodeLabel(nodes[k])]);
      }
    }
    assert nodes[..|nodes|] == nodes;
  }

  // ---- the loop ----

  function Plan(env: Env, nodes: seq<CausalNode>): PearlPlan {
    var h := Abduced(nodes);
    var actions := Actions(env, nodes, h);
    PearlPlan(h, actions, Predicted(env, nodes, h, actions))
  }

  function Planned(env: Env, nodes: seq<CausalNode>): Option<PearlPlan> {
    if nodes == [] then None else Some(Plan(env, nodes))
  }

  method RunPearlLoop(env: Env, graph: CausalGraph) returns (plan: Option<PearlPlan>)
    ensures plan == Planned(env, graph.nodes)
  {
    hide Actions, Predicted, Abduced;
    if |graph.nodes| == 0 {
      return None;
    }
    var h := Abduce(graph);
    var actions := EnumerateActions(env, graph, h);
    var pred := Predict(env, graph, h, actions);
    plan := Some(PearlPlan(h, actions, pred));
  }

  // ---- what a plan says ----

  function Ranked(env: Env, nodes: seq<CausalNode>): (r: seq<ActionCandidate>)
  {
    Sort(Candidates(env, Interventions(nodes), EvidenceWeight(nodes), ConfounderLoad(nodes)), Better)
  }

  lemma RankedAreInterventions(env: Env, nodes: seq<CausalNode>, k: nat) returns (n: CausalNode)
    requires k < |Ranked(env, nodes)|
    ensures n in nodes && n.role == Intervention
    ensures Ranked(env, nodes)[k] == Candidate(env, n, EvidenceWeight(nodes), ConfounderLoad(nodes))
  {
    hide Better, Candidate, EvidenceWeight, ConfounderLoad;
    var ns := Interventions(nodes);
    var cs := Candidates(env, ns, EvidenceWeight(nodes), ConfounderLoad(nodes));
    var c := Ranked(env, nodes)[k];
    SortKeepsMember(cs, Better, c);
    var i :| 0 <= i < |cs| && cs[i] == c;
    n := ns[i];
  }

  lemma NoneRecommended(env: Env, nodes: seq<CausalNode>)
    ensures forall k :: 0 <= k < |Ranked(env, nodes)| ==> !Ranked(env, nodes)[k].recommended
  {
    forall k | 0 <= k < |Ranked(env, nodes)| ensures !Ranked(env, nodes)[k].recommended {
      var n := RankedAreInterventions(env, nodes, k);
    }
  }

  /** A plan blocks on confounder load; unblocked it recommends the best-scored candidate,
      if there is one, and projects that candidate's score. */
  lemma PlanMeaning(env: Env, nodes: seq<CausalNode>)
    ensures var p, s := Plan(env, nodes), Ranked(env, nodes);
      && p.hypothesis.confounderLoad == ConfounderLoad(nodes)
      && p.prediction.blocked == (ConfounderLoad(nodes) >= CONFOUNDER_BLOCK_THRESHOLD)
      && p.prediction.recommended == (if p.prediction.blocked || s == [] then "" else s[0].id)
      && p.prediction.confidence
         == (if p.prediction.blocked || s == [] then env.sigma(EvidenceWeight(nodes) - 2.0 * ConfounderLoad(nodes))
             else s[0].score)
      && |p.actions| == |s|
      && (forall k :: 0 <= k < |s| ==> p.actions[k].recommended == (k == 0 && !p.prediction.blocked))
      && (forall k :: 0 <= k < |s| ==> p.actions[k].id == s[k].id)
  {
    NoneRecommended(env, nodes);
    hide EvidenceWeight, ConfounderLoad, Candidates, Interventions, Better, Unclassified, IdsOf;
  }

  /** Of several candidates the recommended one scores at least as well as any other. */
  lemma RecommendedIsBest(env: Env, nodes: seq<CausalNode>, n: CausalNode)
    requires n in nodes && n.role == Intervention
    ensures Ranked(env, nodes) != []
    ensures Ranked(env, nodes)[0].score >= Candidate(env, n, EvidenceWeight(nodes), ConfounderLoad(nodes)).score
    ensures Better(Ranked(env, nodes)[0], Candidate(env, n, EvidenceWeight(nodes), ConfounderLoad(nodes)))
  {
    hide Candidate, EvidenceWeight, ConfounderLoad, StringLE;
    var ns := Interventions(nodes);
    var cs := Candidates(env, ns, EvidenceWeight(nodes), ConfounderLoad(nodes));
    var i :| 0 <= i < |ns| && ns[i] == n;
    var s := Ranked(env, nodes);
    SortKeepsMember(cs, Better, cs[i]);
    BetterOrders();
    SortSorts(cs, Better);
    var k :| 0 <= k < |s| && s[k] == cs[i];
    assert k > 0 ==> Better(s[0], s[k]);
  }
}
