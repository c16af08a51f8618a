/** The adversarial reviewer: proposes claims, adjudicates them, keeps the strongest
    (adversarial_reviewer.go, adjudication.go). */
module Reviewer {
  import opened Text
  import opened Sorting
  import opened Causal
  import opened ChainText
  import opened Pearl
  import opened Ranking
  import opened Dispute
  import opened Counterfactuals

  // ---- adjudication ----

  datatype Status = Upheld | Noted | Rejected

  datatype Adjudication = Adjudication(status: Status, swingScore: real, mechanical: bool)

  const UPHOLD_CONFIDENCE_THRESHOLD := 0.15
  const NOTED_CONFIDENCE_THRESHOLD := 0.03
  const RECOMMENDATION_FLIP_BONUS := 0.50
  const BLOCKED_BY_CONFOUNDER_BONUS := 0.30
  const TOP_SHAPLEY_CHANGED_BONUS := 0.10

  function SwingScore(r: Report): real {
    AbsConfidenceSwing(r)
    + (if r.recommendationFlipped then RECOMMENDATION_FLIP_BONUS else 0.0)
    + (if r.blockedFlipped then BLOCKED_BY_CONFOUNDER_BONUS else 0.0)
    + (if r.topChanged then TOP_SHAPLEY_CHANGED_BONUS else 0.0)
  }

  /** First match wins. The score alone separates upheld from rejected, though not either from noted. */
  function Adjudicate(r: Report): (a: Adjudication)
    ensures a.status == Upheld ==> a.swingScore >= UPHOLD_CONFIDENCE_THRESHOLD
    ensures a.status == Rejected ==> 0.0 <= a.swingScore < NOTED_CONFIDENCE_THRESHOLD
    ensures a.mechanical <==> r.applied
    ensures a.status != Noted ==> r.applied
  {
    var swing := SwingScore(r);
    if !r.applied then Adjudication(Noted, swing, false)
    else if r.recommendationFlipped then Adjudication(Upheld, swing, true)
    else if r.blockedFlipped then Adjudication(Upheld, swing, true)
    else if AbsConfidenceSwing(r) >= UPHOLD_CONFIDENCE_THRESHOLD then Adjudication(Upheld, swing, true)
    else if AbsConfidenceSwing(r) >= NOTED_CONFIDENCE_THRESHOLD then Adjudication(Noted, swing, true)
    else if r.topChanged then Adjudication(Noted, swing, true)
    else Adjudication(Rejected, swing, true)
  }

  datatype Record = Record(report: Report, ruling: Adjudication)

  function NewRecord(r: Report): Record {
    Record(r, Adjudicate(r))
  }

  // ---- the reviewer ----

  datatype Config = Config(
    reviewerId: string,
    maxDisputes: int,
    minAbsSwingForKeep: real,
    highConfidenceProbeFloor: real,
    heavyEvidenceWeightFloor: real)

  function Keep(cfg: Config, r: Report): bool {
    cfg.minAbsSwingForKeep <= 0.0
    || r.recommendationFlipped || r.blockedFlipped || r.topChanged
    || AbsConfidenceSwing(r) >= cfg.minAbsSwingForKeep
  }

  function DisputeId(cfg: Config, heuristic: string, key: string): string {
    cfg.reviewerId + ":" + heuristic + ":" + SimpleSlug(key)
  }

  function MislabelClaim(cfg: Config, a: NodeAttribution): Claim {
    Claim(DisputeId(cfg, "mislabel", a.id), MislabeledRole, a.id, Confounder, "", 0.0, 0.0, "")
  }

  /** One probe per evidence node whose attribution is negative. */
  function MislabelClaims(cfg: Config, rows: seq<NodeAttribution>): seq<Claim> {
    if rows == [] then []
    else
      var a := rows[|rows| - 1];
      MislabelClaims(cfg, rows[..|rows| - 1]) + if a.role == Evidence && a.phi < 0.0 then [MislabelClaim(cfg, a)] else []
  }

  function BlockedClaim(cfg: Config, c: ActionCandidate): Claim {
    Claim(DisputeId(cfg, "blocked", c.id), ActionBlocked, c.id, NO_ROLE, "", 0.0, 0.0, "")
  }

  /** One probe per recommended action. */
  function BlockedClaims(cfg: Config, cs: seq<ActionCandidate>): seq<Claim> {
    if cs == [] then []
    else
      var c := cs[|cs| - 1];
      BlockedClaims(cfg, cs[..|cs| - 1]) + if c.recommended then [BlockedClaim(cfg, c)] else []
  }

  function ProbeSummary(v: Verdict): (s: string)
    ensures Trim(s) != ""
  {
    assert Trim("unobserved common cause stress test") != "" by {
      TrimOfTrimmed("unobserved common cause stress test");
    }
    if v.openQuestions != [] && Trim(v.openQuestions[0]) != "" then
      TrimOfTrimmed(Trim(v.openQuestions[0]));
      Trim(v.openQuestions[0])
    else "unobserved common cause stress test"
  }

  function ConfounderClaim(cfg: Config, v: Verdict): Claim {
    Claim(DisputeId(cfg, "missing-conf", ProbeSummary(v)), MissingConfounder, "", NO_ROLE,
          ProbeSummary(v), DEFAULT_ADDED_CONFOUNDER_WEIGHT, 0.0, "")
  }

  predicate ProbesConfounder(cfg: Config, v: Verdict) {
    v.plan.Some?
    && v.plan.value.prediction.confidence >= cfg.highConfidenceProbeFloor
    && |v.plan.value.hypothesis.confounders| < 2
  }

  function StaleClaim(cfg: Config, n: CausalNode): Claim {
    Claim(DisputeId(cfg, "stale", n.id), EvidenceStale, n.id, NO_ROLE, "", 0.0, DEFAULT_STALE_FACTOR, "")
  }

  /** One probe per heavy evidence node. */
  function StaleClaims(cfg: Config, nodes: seq<CausalNode>): seq<Claim> {
    if nodes == [] then []
    else
      var n := nodes[|nodes| - 1];
      StaleClaims(cfg, nodes[..|nodes| - 1])
      + if n.role == Evidence && n.weight >= cfg.heavyEvidenceWeightFloor then [StaleClaim(cfg, n)] else []
  }

  function Proposed(cfg: Config, v: Verdict, nodes: seq<CausalNode>): seq<Claim> {
    MislabelClaims(cfg, v.attribution)
    + (if v.plan.Some? then BlockedClaims(cfg, v.plan.value.actions) else [])
    + (if ProbesConfounder(cfg, v) then [ConfounderClaim(cfg, v)] else [])
    + StaleClaims(cfg, nodes)
  }

  /** Reports the reviewer keeps, as records, in proposal order. */
  function Kept(env: Env, cfg: Config, v: Verdict, claims: seq<Claim>): seq<Record> {
    if claims == [] then []
    else
      var r := Evaluated(env, v, claims[|claims| - 1]);
      Kept(env, cfg, v, claims[..|claims| - 1]) + if Keep(cfg, r) then [NewRecord(r)] else []
  }

  function StatusRank(s: Status): int {
    match s
    case Upheld => 0
    case Noted => 1
    case Rejected => 2
  }

  /** Upheld first; within a status the larger swing; then by ID. */
  predicate StrongerFirst(a: Record, b: Record) {
    StatusRank(a.ruling.status) < StatusRank(b.ruling.status)
    || (a.ruling.status == b.ruling.status
        && (a.ruling.swingScore > b.ruling.swingScore
            || (a.ruling.swingScore == b.ruling.swingScore && StringLE(a.report.claim.id, b.report.claim.id))))
  }

  lemma StrongerFirstOrders()
    ensures TotalPreorder(StrongerFirst)
  {
    StringOrder();
    hide StringLE;
  }

  function Truncated(cfg: Config, records: seq<Record>): seq<Record> {
    if cfg.maxDisputes > 0 && |records| > cfg.maxDisputes then records[..cfg.maxDisputes] else records
  }

  function SyncedNodes(env: Env, v: Verdict): seq<CausalNode> {
    var views := Synced(env, v.views);
    if views.graph == None then [] else views.graph.value.nodes
  }

  function Reviewed(env: Env, cfg: Config, v: Verdict): seq<Record> {
    var w := v.(views := Synced(env, v.views));
    var nodes := SyncedNodes(env, v);
    if nodes == [] then []
    else Truncated(cfg, Sort(Kept(env, cfg, w, Proposed(cfg, w, nodes)), StrongerFirst))
  }

  method ProposeMislabelDisputes(cfg: Config, v: Verdict) returns (out: seq<Claim>)
    ensures out == MislabelClaims(cfg, v.attribution)
  {
    hide MislabelClaim;
    out := [];
    var rows := v.attribution;
    for i := 0 to |rows|
      invariant out == MislabelClaims(cfg, rows[..i])
    {
      assert rows[..i + 1][..i] == rows[..i];
      if rows[i].role != Evidence || rows[i].phi >= 0.0 {
        continue;
      }
      out := out + [MislabelClaim(cfg, rows[i])];
    }
    assert rows[..|rows|] == rows;
  }

  method ProposeActionBlockedDisputes(cfg: Config, v: Verdict) returns (out: seq<Claim>)
    ensures out == if v.plan.Some? then BlockedClaims(cfg, v.plan.value.actions) else []
  {
    hide BlockedClaim;
    out := [];
    if v.plan == None {
      return;
    }
    var cs := v.plan.value.actions;
    for i := 0 to |cs|
      invariant out == BlockedClaims(cfg, cs[..i])
    {
      assert cs[..i + 1][..i] == cs[..i];
      if cs[i].recommended {
        out := out + [BlockedClaim(cfg, cs[i])];
      }
    }
    assert cs[..|cs|] == cs;
  }

  method ProposeEvidenceStaleDisputes(cfg: Config, nodes: seq<CausalNode>) returns (out: seq<Claim>)
    ensures out == StaleClaims(cfg, nodes)
  {
    hide StaleClaim;
    out := [];
    for i := 0 to |nodes|
      invariant out == StaleClaims(cfg, nodes[..i])
    {
      assert nodes[..i + 1][..i] == nodes[..i];
      if nodes[i].role != Evidence || nodes[i].weight < cfg.heavyEvidenceWeightFloor {
        continue;
      }
      out := out + [StaleClaim(cfg, nodes[i])];
    }
    assert nodes[..|nodes|] == nodes;
  }

  method Review(env: Env, cfg: Config, verdict: Verdict) returns (records: seq<Record>)
    ensures records == Reviewed(env, cfg, verdict)
  {
    hide Synced, Evaluated, Kept, MislabelClaims, BlockedClaims, StaleClaims, StrongerFirst, ConfounderClaim, ProbesConfounder;
    var v := verdict.(views := Synced(env, verdict.views));
    if v.views.graph == None || |v.views.graph.value.nodes| == 0 {
      return [];
    }
    var nodes := v.views.graph.value.nodes;
    var disputes := ProposeMislabelDisputes(cfg, v);
    var blocked := ProposeActionBlockedDisputes(cfg, v);
    disputes := disputes + blocked;
    if ProbesConfounder(cfg, v) {
      disputes := disputes + [ConfounderClaim(cfg, v)];
    }
    var stale := ProposeEvidenceStaleDisputes(cfg, nodes);
    disputes := disputes + stale;
    assert disputes == Proposed(cfg, v, nodes);
    records := EvaluateAll(env, cfg, v, disputes);
    records := Sort(records, StrongerFirst);
    if cfg.maxDisputes > 0 && |records| > cfg.maxDisputes {
      records := records[..cfg.maxDisputes];
    }
  }

  method EvaluateAll(env: Env, cfg: Config, v: Verdict, disputes: seq<Claim>) returns (records: seq<Record>)
    ensures records == Kept(env, cfg, v, disputes)
  {
    hide Evaluated, Keep, NewRecord;
    records := [];
    for i := 0 to |disputes|
      invariant records == Kept(env, cfg, v, disputes[..i])
    {
      assert disputes[..i + 1][..i] == disputes[..i];
      var report := EvaluateDispute(env, v, disputes[i]);
      if !Keep(cfg, report) {
        continue;
      }
      records := records + [NewRecord(report)];
    }
    assert disputes[..|disputes|] == disputes;
  }

  // ---- what a review keeps ----

  lemma {:induction false} KeptRecord(env: Env, cfg: Config, v: Verdict, claims: seq<Claim>, d: Claim)
    requires d in claims && Keep(cfg, Evaluated(env, v, d))
    ensures NewRecord(Evaluated(env, v, d)) in Kept(env, cfg, v, claims)
    decreases |claims|
  {
    hide Evaluated, Keep, NewRecord;
    if d != claims[|claims| - 1] {
      assert d in claims[..|claims| - 1];
      KeptRecord(env, cfg, v, claims[..|claims| - 1], d);
    }
  }

  lemma {:induction false} KeptAreRulings(env: Env, cfg: Config, v: Verdict, claims: seq<Claim>, r: Record)
    requires r in Kept(env, cfg, v, claims)
    ensures exists d :: d in claims && r == NewRecord(Evaluated(env, v, d)) && Keep(cfg, Evaluated(env, v, d))
    decreases |claims|
  {
    hide Evaluated, Keep, NewRecord;
    var last := claims[|claims| - 1];
    if r in Kept(env, cfg, v, claims[..|claims| - 1]) {
      KeptAreRulings(env, cfg, v, claims[..|claims| - 1], r);
      var d :| d in claims[..|claims| - 1] && r == NewRecord(Evaluated(env, v, d)) && Keep(cfg, Evaluated(env, v, d));
      assert d in claims;
    } else {
      assert last in claims;
    }
  }

  /** The cut keeps the front of the ranking: nothing dropped outranks anything kept. */
  lemma TruncationKeepsStrongest(cfg: Config, records: seq<Record>, a: Record, b: Record)
    requires var s := Sort(records, StrongerFirst);
      a in Truncated(cfg, s) && b in records && b !in Truncated(cfg, s)
    ensures StrongerFirst(a, b)
    ensures b.ruling.status == Upheld ==> a.ruling.status == Upheld
  {
    StrongerFirstOrders();
    var s := Sort(records, StrongerFirst);
    SortSorts(records, StrongerFirst);
    SortKeepsMember(records, StrongerFirst, b);
    var kept := Truncated(cfg, s);
    var i :| 0 <= i < |kept| && kept[i] == a;
    var j :| 0 <= j < |s| && s[j] == b;
    assert kept == s[..|kept|];
    assert forall k :: 0 <= k < |kept| ==> s[k] == kept[k] && s[k] in kept;
    assert j >= |kept|;
    assert StrongerFirst(s[i], s[j]);
  }

  /** If anything upheld was kept, the review opens with an upheld record. */
  lemma UpheldSurvives(cfg: Config, records: seq<Record>, r: Record)
    requires r in records && r.ruling.status == Upheld
    ensures var out := Truncated(cfg, Sort(records, StrongerFirst));
      out != [] && out[0].ruling.status == Upheld
  {
    StrongerFirstOrders();
    var s := Sort(records, StrongerFirst);
    SortSorts(records, StrongerFirst);
    SortKeepsMember(records, StrongerFirst, r);
    var j :| 0 <= j < |s| && s[j] == r;
    if j > 0 {
      assert StrongerFirst(s[0], s[j]);
    }
  }

  // ---- end to end ----

  lemma {:induction false} RecommendedIsProbed(cfg: Config, cs: seq<ActionCandidate>, k: nat)
    requires k < |cs| && cs[k].recommended
    ensures BlockedClaim(cfg, cs[k]) in BlockedClaims(cfg, cs)
    decreases |cs|
  {
    hide BlockedClaim;
    if k < |cs| - 1 {
      RecommendedIsProbed(cfg, cs[..|cs| - 1], k);
    }
  }

  lemma ConsistentIsSynced(env: Env, v: Verdict, nodes: seq<CausalNode>)
    requires Consistent(env, v, nodes)
    ensures SyncedNodes(env, v) == nodes
    ensures Consistent(env, v.(views := Synced(env, v.views)), nodes)
  {
    hide Flat, Planned, Attributed;
  }

  lemma ProbeOfRecommended(env: Env, cfg: Config, v: Verdict, nodes: seq<CausalNode>) returns (d: Claim)
    requires Consistent(env, v, nodes) && Plan(env, nodes).prediction.recommended != ""
    ensures d in Proposed(cfg, v, nodes)
    ensures d.ground == ActionBlocked && d.target == Plan(env, nodes).prediction.recommended
  {
    hide Plan, Better, EvidenceWeight, ConfounderLoad, Attributed, MislabelClaims, StaleClaims, ProbesConfounder;
    PlanMeaning(env, nodes);
    var cs := Plan(env, nodes).actions;
    RecommendedIsProbed(cfg, cs, 0);
    d := BlockedClaim(cfg, cs[0]);
  }

  /** A verdict that recommends an action never passes review unchallenged: the first record
      is upheld, whatever the keep threshold and the cap. */
  lemma RecommendingVerdictIsUpheldAgainst(env: Env, cfg: Config, v: Verdict, nodes: seq<CausalNode>)
    requires Squashing(env.sigma) && Consistent(env, v, nodes) && UniqueIds(nodes)
    requires Plan(env, nodes).prediction.recommended != ""
    ensures Reviewed(env, cfg, v) != [] && Reviewed(env, cfg, v)[0].ruling.status == Upheld
  {
    assert nodes != [];
    hide Plan, Consistent, Squashing, UniqueIds, Evaluated, Synced, Proposed, Kept, SyncedNodes, StrongerFirst, SwingScore;
    var w := v.(views := Synced(env, v.views));
    ConsistentIsSynced(env, v, nodes);
    var d := ProbeOfRecommended(env, cfg, w, nodes);
    BlockingRecommendedFlips(env, w, nodes, d);
    var r := NewRecord(Evaluated(env, w, d));
    var claims := Proposed(cfg, w, nodes);
    KeptRecord(env, cfg, w, claims, d);
    UpheldSurvives(cfg, Kept(env, cfg, w, claims), r);
  }

  /** On non-negative weights no attribution is negative on evidence, so no role is probed. */
  lemma MislabelNeverProbed(env: Env, cfg: Config, v: Verdict, nodes: seq<CausalNode>)
    requires Squashing(env.sigma) && Consistent(env, v, nodes) && NonNegative(nodes)
    ensures MislabelClaims(cfg, v.attribution) == []
  {
    hide Attributed, Squashing, NonNegative, Planned;
    var rows := Attributed(env, nodes);
    forall k | 0 <= k < |rows| ensures rows[k].role == Evidence ==> rows[k].phi >= 0.0 {
      AttributionSigns(env, nodes, k);
    }
    NoNegativeEvidence(cfg, rows);
  }

  lemma {:induction false} NoNegativeEvidence(cfg: Config, rows: seq<NodeAttribution>)
    requires forall k :: 0 <= k < |rows| ==> rows[k].role == Evidence ==> rows[k].phi >= 0.0
    ensures MislabelClaims(cfg, rows) == []
  {
    if rows != [] {
      NoNegativeEvidence(cfg, rows[..|rows| - 1]);
    }
  }

  /** Which nodes are probed as mislabelled, on weights of any sign: exactly the evidence
      players of negative weight. */
  lemma MislabelProbesNegativeEvidence(env: Env, cfg: Config, v: Verdict, nodes: seq<CausalNode>, d: Claim)
    requires Squashing(env.sigma) && Consistent(env, v, nodes)
    ensures d in MislabelClaims(cfg, v.attribution)
      <==> exists n :: n in Capped(Players(nodes)) && n.role == Evidence && n.weight < 0.0 && d == ProbeOfRole(cfg, n.id)
  {
    hide Attributed, Squashing, Planned, Players, Capped, MislabelClaims, MislabelClaim, ProbeOfRole;
    var rows, players := Attributed(env, nodes), Capped(Players(nodes));
    MislabelClaimsAre(cfg, rows, d);
    if k :| 0 <= k < |rows| && rows[k].role == Evidence && rows[k].phi < 0.0 && d == MislabelClaim(cfg, rows[k]) {
      var n := ProbedRowIsNegative(env, cfg, nodes, k);
    }
    if n :| n in players && n.role == Evidence && n.weight < 0.0 && d == ProbeOfRole(cfg, n.id) {
      var k := NegativeIsProbed(env, cfg, nodes, n);
    }
  }

  lemma ProbedRowIsNegative(env: Env, cfg: Config, nodes: seq<CausalNode>, k: nat) returns (n: CausalNode)
    requires Squashing(env.sigma) && k < |Attributed(env, nodes)|
    requires Attributed(env, nodes)[k].role == Evidence && Attributed(env, nodes)[k].phi < 0.0
    ensures n in Capped(Players(nodes)) && n.role == Evidence && n.weight < 0.0
    ensures MislabelClaim(cfg, Attributed(env, nodes)[k]) == ProbeOfRole(cfg, n.id)
  {
    hide Attributed, Squashing, Players, Capped, DisputeId, Phi;
    var players := Capped(Players(nodes));
    var i := AttributionOfPlayer(env, nodes, k);
    PhiSignAndBound(env, players, i);
    n := players[i];
  }

  lemma NegativeIsProbed(env: Env, cfg: Config, nodes: seq<CausalNode>, n: CausalNode) returns (k: nat)
    requires Squashing(env.sigma) && n in Capped(Players(nodes)) && n.role == Evidence && n.weight < 0.0
    ensures k < |Attributed(env, nodes)|
    ensures Attributed(env, nodes)[k].role == Evidence && Attributed(env, nodes)[k].phi < 0.0
    ensures MislabelClaim(cfg, Attributed(env, nodes)[k]) == ProbeOfRole(cfg, n.id)
  {
    hide Attributed, Squashing, Players, Capped, DisputeId, Phi;
    var players := Capped(Players(nodes));
    var i :| 0 <= i < |players| && players[i] == n;
    PhiSignAndBound(env, players, i);
    k := PlayerAttributed(env, nodes, i);
  }

  function ProbeOfRole(cfg: Config, id: string): Claim {
    Claim(DisputeId(cfg, "mislabel", id), MislabeledRole, id, Confounder, "", 0.0, 0.0, "")
  }

  lemma {:induction false} MislabelClaimsAre(cfg: Config, rows: seq<NodeAttribution>, d: Claim)
    ensures d in MislabelClaims(cfg, rows)
      <==> exists k :: 0 <= k < |rows| && rows[k].role == Evidence && rows[k].phi < 0.0 && d == MislabelClaim(cfg, rows[k])
  {
    hide MislabelClaim;
    if rows != [] {
      var front := rows[..|rows| - 1];
      MislabelClaimsAre(cfg, front, d);
      assert forall k :: 0 <= k < |front| ==> front[k] == rows[k];
    }
  }

  // ---- the missing-confounder probe ----

  /** When the probe is raised it is among the claims; on a blocked verdict it is raised exactly
      for high confidence and fewer than two confounders. */
  lemma ConfounderProbeIsRaised(env: Env, cfg: Config, v: Verdict, nodes: seq<CausalNode>)
    requires Consistent(env, v, nodes)
    ensures ProbesConfounder(cfg, v) ==> ConfounderClaim(cfg, v) in Proposed(cfg, v, nodes)
    ensures ConfounderLoad(nodes) >= CONFOUNDER_BLOCK_THRESHOLD ==>
      (ProbesConfounder(cfg, v)
       <==> env.sigma(EvidenceWeight(nodes) - 2.0 * ConfounderLoad(nodes)) >= cfg.highConfidenceProbeFloor
            && |IdsOf(nodes, Confounder, Confounder)| < 2)
  {
    hide MislabelClaims, BlockedClaims, StaleClaims, ConfounderClaim, EvidenceWeight, ConfounderLoad, Ranked, IdsOf, Attributed, Actions, Predicted, StringLE;
    PlanMeaning(env, nodes);
    assert |Plan(env, nodes).hypothesis.confounders| == |IdsOf(nodes, Confounder, Confounder)|;
  }

  lemma RuledOnSwing(r: Report)
    requires r.applied && !r.recommendationFlipped && !r.blockedFlipped && -1.0 < r.delta < 1.0
    ensures Adjudicate(r).status == Upheld <==> Abs(r.delta) >= UPHOLD_CONFIDENCE_THRESHOLD
  {
  }

  /** The probe adds 0.7 against a threshold of 0.6. Its ruling, for every confounder load:
      from -0.1 up to the threshold the block flips and it is upheld; at the threshold and above
      the verdict is blocked already, and it is upheld exactly when those 0.7 take 0.15 of
      confidence; below -0.1 nothing is blocked, and the two plans decide. */
  lemma ConfounderProbeRuling(env: Env, cfg: Config, v: Verdict, nodes: seq<CausalNode>)
    requires Squashing(env.sigma) && Consistent(env, v, nodes)
    ensures var r, e, l := NewRecord(Evaluated(env, v, ConfounderClaim(cfg, v))), EvidenceWeight(nodes), ConfounderLoad(nodes);
      && (r.report.blockedFlipped <==> -0.1 <= l < CONFOUNDER_BLOCK_THRESHOLD)
      && (-0.1 <= l < CONFOUNDER_BLOCK_THRESHOLD ==> r.ruling.status == Upheld)
      && (l >= CONFOUNDER_BLOCK_THRESHOLD ==>
            (r.ruling.status == Upheld
             <==> env.sigma(e - 2.0 * l) - env.sigma(e - 2.0 * l - 1.4) >= UPHOLD_CONFIDENCE_THRESHOLD))
      && (l < -0.1 ==>
            (r.ruling.status == Upheld <==> PlansDiffer(Plan(env, nodes).prediction, Plan(env, WithProbe(cfg, v, nodes)).prediction)))
  {
    hide Consistent, Squashing, Evaluated, ConfounderLoad, EvidenceWeight, DisputeId, SwingScore, Plan, AddedNode;
    var d, l := ConfounderClaim(cfg, v), ConfounderLoad(nodes);
    MissingConfounderFlips(env, v, nodes, d);
    if l >= CONFOUNDER_BLOCK_THRESHOLD {
      BlockedOnlyLosesConfidence(env, v, nodes, d);
      RuledOnSwing(Evaluated(env, v, d));
    } else if l < -0.1 {
      ConfounderByPlans(env, v, nodes, d);
    }
  }

  /** Another recommendation, or a confidence at least 0.15 away. */
  predicate PlansDiffer(p: Prediction, q: Prediction) {
    p.recommended != q.recommended || Abs(q.confidence - p.confidence) >= UPHOLD_CONFIDENCE_THRESHOLD
  }

  function WithProbe(cfg: Config, v: Verdict, nodes: seq<CausalNode>): seq<CausalNode> {
    nodes + [AddedNode(nodes, ConfounderClaim(cfg, v))]
  }

  lemma ProbeKeepsInterventions(cfg: Config, v: Verdict, nodes: seq<CausalNode>)
    ensures var more, d := WithProbe(cfg, v, nodes), ConfounderClaim(cfg, v);
      && Trim(d.addedSummary) != "" && AddedWeight(d) == 0.7
      && EvidenceWeight(more) == EvidenceWeight(nodes) && ConfounderLoad(more) == ConfounderLoad(nodes) + 0.7
      && (forall k: CausalNode :: k.role == Intervention ==> (k in more <==> k in nodes))
  {
    ConfounderEffect(nodes, ConfounderClaim(cfg, v));
    hide EvidenceWeight, ConfounderLoad, DisputeId;
    assert AddedNode(nodes, ConfounderClaim(cfg, v)).role == Confounder;
  }

  /** The lead passes to another name, or costs 0.15 of the leader's score. */
  predicate LeadChanges(env: Env, n: CausalNode, m: CausalNode, weight: real, load: real) {
    n.id != m.id
    || env.sigma(RawScore(env, n, weight, load)) - env.sigma(RawScore(env, m, weight, load + 0.7)) >= UPHOLD_CONFIDENCE_THRESHOLD
  }

  /** What two plans of interventions come to, said of their leaders. */
  lemma LeadersDecide(env: Env, cfg: Config, v: Verdict, nodes: seq<CausalNode>, n: CausalNode, m: CausalNode)
    requires Squashing(env.sigma) && ConfounderLoad(nodes) < -0.1
    requires Leads(env, nodes, n, ConfounderLoad(nodes)) && Leads(env, nodes, m, ConfounderLoad(nodes) + 0.7)
    ensures var e, l := EvidenceWeight(nodes), ConfounderLoad(nodes);
      PlansDiffer(Plan(env, nodes).prediction, Plan(env, WithProbe(cfg, v, nodes)).prediction)
      <==> LeadChanges(env, n, m, e, l)
  {
    hide EvidenceWeight, ConfounderLoad, Plan, WithProbe, Squashing, RawLE, RawScore;
    var e, l, more := EvidenceWeight(nodes), ConfounderLoad(nodes), WithProbe(cfg, v, nodes);
    ProbeKeepsInterventions(cfg, v, nodes);
    LeaderIsRecommended(env, nodes, n);
    LeaderIsRecommended(env, more, m);
    LeadIsHigher(env, n, m, e, l, l + 0.7);
  }

  /** Under more load even the best scores less than the best did. */
  lemma LeadIsHigher(env: Env, n: CausalNode, m: CausalNode, weight: real, less: real, more: real)
    requires Squashing(env.sigma) && less < more && RawLE(env, less, n, m)
    ensures env.sigma(RawScore(env, m, weight, more)) < env.sigma(RawScore(env, n, weight, less))
  {
    hide StringLE;
    assert RawScore(env, m, weight, more) < RawScore(env, m, weight, less) <= RawScore(env, n, weight, less);
  }

  /** The ruling on loads below -0.1, where nothing is blocked before or after, in terms of the
      graph: without interventions the 0.7 must take 0.15 of confidence; with some, either the
      lead passes to another name or the leaders' scores are 0.15 apart. */
  lemma ConfounderProbeRulingBelow(env: Env, cfg: Config, v: Verdict, nodes: seq<CausalNode>)
    requires Squashing(env.sigma) && Consistent(env, v, nodes) && ConfounderLoad(nodes) < -0.1
    ensures var upheld := NewRecord(Evaluated(env, v, ConfounderClaim(cfg, v))).ruling.status == Upheld;
      var e, l := EvidenceWeight(nodes), ConfounderLoad(nodes);
      var heavier := l + 0.7;
      && ((forall k :: k in nodes ==> k.role != Intervention) ==>
            (upheld <==> env.sigma(e - 2.0 * l) - env.sigma(e - 2.0 * l - 1.4) >= UPHOLD_CONFIDENCE_THRESHOLD))
      && ((exists k :: k in nodes && k.role == Intervention) ==>
            (exists n :: Leads(env, nodes, n, l)) && (exists m :: Leads(env, nodes, m, heavier)))
      && (forall n, m :: Leads(env, nodes, n, l) && Leads(env, nodes, m, heavier) ==>
            (upheld <==> LeadChanges(env, n, m, e, l)))
  {
    hide Consistent, Squashing, Evaluated, ConfounderLoad, EvidenceWeight, NewRecord, Plan, WithProbe, ConfounderClaim, PlansDiffer, RawScore, RawLE, Leads;
    var l := ConfounderLoad(nodes);
    var heavier := l + 0.7;
    ConfounderProbeRuling(env, cfg, v, nodes);
    if exists k :: k in nodes && k.role == Intervention {
      SomeoneLeads(env, nodes, l);
      SomeoneLeads(env, nodes, heavier);
    } else {
      NothingToDo(env, cfg, v, nodes);
    }
    forall n, m | Leads(env, nodes, n, l) && Leads(env, nodes, m, heavier)
      ensures PlansDiffer(Plan(env, nodes).prediction, Plan(env, WithProbe(cfg, v, nodes)).prediction)
        <==> LeadChanges(env, n, m, EvidenceWeight(nodes), l)
    {
      LeadersDecide(env, cfg, v, nodes, n, m);
    }
  }

  lemma NothingToDo(env: Env, cfg: Config, v: Verdict, nodes: seq<CausalNode>)
    requires Squashing(env.sigma) && ConfounderLoad(nodes) < -0.1 && forall k :: k in nodes ==> k.role != Intervention
    ensures var e, l := EvidenceWeight(nodes), ConfounderLoad(nodes);
      PlansDiffer(Plan(env, nodes).prediction, Plan(env, WithProbe(cfg, v, nodes)).prediction)
      <==> env.sigma(e - 2.0 * l) - env.sigma(e - 2.0 * l - 1.4) >= UPHOLD_CONFIDENCE_THRESHOLD
  {
    hide EvidenceWeight, ConfounderLoad, Plan, WithProbe, Squashing, PlansDiffer, ConfounderClaim;
    var e, l, more := EvidenceWeight(nodes), ConfounderLoad(nodes), WithProbe(cfg, v, nodes);
    ProbeKeepsInterventions(cfg, v, nodes);
    PlanWithoutActions(env, nodes);
    PlanWithoutActions(env, more);
    var x, y := e - 2.0 * l, e - 2.0 * l - 1.4;
    assert EvidenceWeight(more) - 2.0 * ConfounderLoad(more) == y;
    SquashedApart(env.sigma, y, x);
    DropDecides(Plan(env, nodes).prediction, Plan(env, more).prediction);
  }

  lemma DropDecides(p: Prediction, q: Prediction)
    requires p.recommended == q.recommended && p.confidence > q.confidence
    ensures PlansDiffer(p, q) <==> p.confidence - q.confidence >= UPHOLD_CONFIDENCE_THRESHOLD
  {
  }

  lemma PlanWithoutActions(env: Env, nodes: seq<CausalNode>)
    requires forall k :: k in nodes ==> k.role != Intervention
    ensures var p := Plan(env, nodes).prediction;
      p.recommended == "" && p.confidence == env.sigma(EvidenceWeight(nodes) - 2.0 * ConfounderLoad(nodes))
  {
    hide Plan, EvidenceWeight, ConfounderLoad, Ranked;
    PlanMeaning(env, nodes);
    NoneRanked(env, nodes);
  }

  lemma NoneRanked(env: Env, nodes: seq<CausalNode>)
    requires forall k :: k in nodes ==> k.role != Intervention
    ensures Ranked(env, nodes) == []
  {
    hide Ranked;
    if Ranked(env, nodes) != [] {
      var n := RankedAreInterventions(env, nodes, 0);
      assert false;
    }
  }

  /** Where no risk is announced the leader is the heaviest intervention, before and after, and
      the ruling depends on its weight alone. */
  lemma ConfounderProbeRulingUnannounced(env: Env, cfg: Config, v: Verdict, nodes: seq<CausalNode>, n: CausalNode)
    requires Squashing(env.sigma) && Consistent(env, v, nodes) && ConfounderLoad(nodes) < -0.1
    requires Leads(env, nodes, n, ConfounderLoad(nodes))
    requires forall k :: k in nodes && k.role == Intervention ==> "risk" !in k.meta
    ensures forall k :: k in nodes && k.role == Intervention ==> k.weight <= n.weight
    ensures var x := EvidenceWeight(nodes) - 2.5 * ConfounderLoad(nodes) + 0.5 * n.weight - INTERVENTION_RISK_FLOOR;
      NewRecord(Evaluated(env, v, ConfounderClaim(cfg, v))).ruling.status == Upheld
      <==> env.sigma(x) - env.sigma(x - 1.75) >= UPHOLD_CONFIDENCE_THRESHOLD
  {
    hide Consistent, Squashing, Evaluated, ConfounderLoad, EvidenceWeight, NewRecord, ConfounderClaim, StringLE;
    var e, l := EvidenceWeight(nodes), ConfounderLoad(nodes);
    ConfounderProbeRulingBelow(env, cfg, v, nodes);
    var heavier := l + 0.7;
    LeaderIgnoresLoad(env, nodes, n, l, heavier);
    assert Leads(env, nodes, n, heavier);
    PlainScore(env, n, e, l);
    PlainScore(env, n, e, l + 0.7);
  }

  lemma PlainScore(env: Env, n: CausalNode, weight: real, load: real)
    requires "risk" !in n.meta
    ensures RawScore(env, n, weight, load) == weight - 2.5 * load + 0.5 * n.weight - INTERVENTION_RISK_FLOOR
  {
  }

  const STRONG_EVIDENCE := CausalNode("e", Evidence, "", [], [], 100.0, map[])
  const SINGLE_CONFOUNDER := CausalNode("c", Confounder, "", [], [], 0.6, map[])

  /** The verdict the program builds from a graph: its own plan, its own attribution. */
  function VerdictOf(env: Env, nodes: seq<CausalNode>): Verdict {
    Verdict(0.0, Views([], Some(CausalGraph(nodes))), Planned(env, nodes), Attributed(env, nodes), [])
  }

  /** Concretely: overwhelming evidence and one confounder that blocks. The probe is raised, and
      not upheld, with any squashing function that is above 0.9 at 90; there is one. */
  lemma ConfounderProbeNotUpheld(env: Env, cfg: Config)
    requires Squashing(env.sigma) && env.sigma(90.0) > 0.9 && cfg.highConfidenceProbeFloor <= 0.9
    ensures var v := VerdictOf(env, [STRONG_EVIDENCE, SINGLE_CONFOUNDER]);
      ProbesConfounder(cfg, v) && NewRecord(Evaluated(env, v, ConfounderClaim(cfg, v))).ruling.status != Upheld
    ensures Squashing(Hyperbola) && Hyperbola(90.0) > 0.9
  {
    hide Evaluated, EvidenceWeight, ConfounderLoad, Ranked, ConfounderClaim, Hyperbola, IdsOf, Plan, Attributed, Squashing, Abs, NewRecord, ProbesConfounder, PlansDiffer;
    var nodes := [STRONG_EVIDENCE, SINGLE_CONFOUNDER];
    TwoTerms(STRONG_EVIDENCE, SINGLE_CONFOUNDER);
    ConfounderProbeRuling(env, cfg, VerdictOf(env, nodes), nodes);
    WitnessScores(env.sigma);
    WitnessIsProbed(env, cfg);
    SquashingExists();
  }

  lemma WitnessScores(sigma: real -> real)
    requires Squashing(sigma) && sigma(90.0) > 0.9
    ensures sigma(100.0 - 2.0 * 0.6) > 0.9
    ensures sigma(100.0 - 2.0 * 0.6) - sigma(100.0 - 2.0 * 0.6 - 1.4) < UPHOLD_CONFIDENCE_THRESHOLD
  {
    assert sigma(90.0) < sigma(100.0 - 2.0 * 0.6 - 1.4) && sigma(90.0) < sigma(100.0 - 2.0 * 0.6) < 1.0;
  }

  lemma WitnessIsProbed(env: Env, cfg: Config)
    requires Squashing(env.sigma) && env.sigma(90.0) > 0.9 && cfg.highConfidenceProbeFloor <= 0.9
    ensures ProbesConfounder(cfg, VerdictOf(env, [STRONG_EVIDENCE, SINGLE_CONFOUNDER]))
  {
    hide EvidenceWeight, ConfounderLoad, IdsOf, Attributed, Squashing, Plan, ProbesConfounder;
    var nodes := [STRONG_EVIDENCE, SINGLE_CONFOUNDER];
    TwoTerms(STRONG_EVIDENCE, SINGLE_CONFOUNDER);
    WitnessScores(env.sigma);
    ConfounderProbeIsRaised(env, cfg, VerdictOf(env, nodes), nodes);
  }

  lemma TwoTerms(a: CausalNode, b: CausalNode)
    ensures EvidenceWeight([a, b]) == EvidenceTerm(a) + EvidenceTerm(b)
    ensures ConfounderLoad([a, b]) == LoadTerm(a) + LoadTerm(b)
    ensures |IdsOf([a, b], Confounder, Confounder)| == (if a.role == Confounder then 1 else 0) + (if b.role == Confounder then 1 else 0)
  {
    assert [a, b][..1] == [a] && [a][..0] == [];
    hide EvidenceTerm, LoadTerm;
    assert EvidenceWeight([a]) == EvidenceTerm(a) && ConfounderLoad([a]) == LoadTerm(a);
    assert |IdsOf([a], Confounder, Confounder)| == if a.role == Confounder then 1 else 0;
  }

  /** The cap holds, and every record returned is the ruling on a claim the reviewer proposed. */
  lemma ReviewIsBounded(env: Env, cfg: Config, v: Verdict)
    ensures cfg.maxDisputes > 0 ==> |Reviewed(env, cfg, v)| <= cfg.maxDisputes
    ensures var w := v.(views := Synced(env, v.views));
      forall r :: r in Reviewed(env, cfg, v) ==>
        exists d :: d in Proposed(cfg, w, SyncedNodes(env, v)) && r == NewRecord(Evaluated(env, w, d))
  {
    hide Synced, Evaluated, Proposed, Kept, SyncedNodes, StrongerFirst, NewRecord, Keep;
    var w := v.(views := Synced(env, v.views));
    var claims := Proposed(cfg, w, SyncedNodes(env, v));
    forall r | r in Reviewed(env, cfg, v)
      ensures exists d :: d in claims && r == NewRecord(Evaluated(env, w, d))
    {
      SortKeepsMember(Kept(env, cfg, w, claims), StrongerFirst, r);
      KeptAreRulings(env, cfg, w, claims, r);
    }
  }
}
