/** Claims against a verdict, replayed counterfactually (dispute.go). */
module Dispute {
  import opened Text
  import opened Causal
  import opened ChainText
  import opened Pearl
  import opened Ranking

  datatype Ground =
    | MislabeledRole
    | MissingConfounder
    | ActionBlocked
    | EvidenceStale
    | Narrative
    | OtherGround(name: string)

  datatype Claim = Claim(
    id: string,
    ground: Ground,
    target: string,
    newRole: Role,
    addedSummary: string,
    addedWeight: real,
    staleFactor: real,
    narrative: string)

  const DEFAULT_ADDED_CONFOUNDER_WEIGHT := 0.7
  const DEFAULT_STALE_FACTOR := 0.25

  // ---- slugs ----

  predicate SlugChar(c: char) {
    'a' <= c <= 'z' || '0' <= c <= '9'
  }

  /** Keeps letters and digits, one dash for each run of anything else but the first. */
  function SlugFold(s: string): (r: (string, bool))
    ensures forall c :: c in r.0 ==> SlugChar(c) || c == '-'
  {
    if s == "" then ("", false)
    else
      var (b, dashed) := SlugFold(s[..|s| - 1]);
      var c := s[|s| - 1];
      if SlugChar(c) then (b + [c], false)
      else if !dashed && b != "" then (b + "-", true)
      else (b, dashed)
  }

  function TrimDashes(s: string): (r: string)
    ensures forall c :: c in r ==> c in s
    ensures r != "" ==> r[0] != '-' && r[|r| - 1] != '-'
  {
    if s != "" && s[0] == '-' then TrimDashes(s[1..])
    else if s != "" && s[|s| - 1] == '-' then TrimDashes(s[..|s| - 1])
    else s
  }

  function SimpleSlug(s: string): (r: string)
    ensures 0 < |r| <= 32
    ensures forall c :: c in r ==> SlugChar(c) || c == '-'
  {
    var out := TrimDashes(SlugFold(ToLower(Trim(s))).0);
    if out == "" then "anon" else if |out| > 32 then out[..32] else out
  }

  // ---- applying a claim ----

  method FindNode(nodes: seq<CausalNode>, id: string) returns (i: nat)
    ensures i == IndexOfNode(nodes, id)
  {
    i := 0;
    while i < |nodes| && nodes[i].id != id
      invariant i <= |nodes| && forall k :: 0 <= k < i ==> nodes[k].id != id
    {
      i := i + 1;
    }
  }

  function StaleFactor(d: Claim): (f: real)
    ensures 0.0 < f < 1.0
  {
    if d.staleFactor <= 0.0 || d.staleFactor >= 1.0 then DEFAULT_STALE_FACTOR else d.staleFactor
  }

  function AddedWeight(d: Claim): (w: real)
    ensures w > 0.0
  {
    if d.addedWeight <= 0.0 then DEFAULT_ADDED_CONFOUNDER_WEIGHT else d.addedWeight
  }

  function AddedNode(nodes: seq<CausalNode>, d: Claim): CausalNode {
    var summary := Trim(d.addedSummary);
    var id := "dispute:" + SimpleSlug(summary);
    CausalNode(if IndexOfNode(nodes, id) < |nodes| then id + "-cf" else id,
               Confounder, summary, [], [], AddedWeight(d), map["source" := "dispute"])
  }

  function Staled(n: CausalNode, d: Claim): CausalNode {
    n.(weight := n.weight * StaleFactor(d), meta := n.meta["stale" := "true"])
  }

  datatype Effect = Effect(nodes: seq<CausalNode>, applied: bool)

  function ClaimEffect(nodes: seq<CausalNode>, d: Claim): Effect {
    var idx := IndexOfNode(nodes, d.target);
    var found := d.target != "" && idx < |nodes|;
    match d.ground
    case MislabeledRole =>
      if found && d.newRole != NO_ROLE && nodes[idx].role != d.newRole
      then Effect(nodes[idx := nodes[idx].(role := d.newRole)], true) else Effect(nodes, false)
    case MissingConfounder =>
      if Trim(d.addedSummary) == "" then Effect(nodes, false) else Effect(nodes + [AddedNode(nodes, d)], true)
    case ActionBlocked =>
      if found then Effect(nodes[..idx] + nodes[idx + 1..], true) else Effect(nodes, false)
    case EvidenceStale =>
      if found then Effect(nodes[idx := Staled(nodes[idx], d)], true) else Effect(nodes, false)
    case _ => Effect(nodes, false)
  }

  method ApplyDisputeClaim(graph: CausalGraph, d: Claim) returns (cf: CausalGraph, applied: bool)
    ensures Effect(cf.nodes, applied) == ClaimEffect(graph.nodes, d)
  {
    hide SimpleSlug, Trim, IndexOfNode;
    cf := graph;
    applied := false;
    match d.ground {
      case MislabeledRole =>
        if d.target == "" || d.newRole == NO_ROLE {
          return;
        }
        var idx := FindNode(cf.nodes, d.target);
        if idx == |cf.nodes| {
          return;
        }
        if cf.nodes[idx].role == d.newRole {
          return;
        }
        cf := CausalGraph(cf.nodes[idx := cf.nodes[idx].(role := d.newRole)]);
        applied := true;
        assert ClaimEffect(graph.nodes, d) == Effect(cf.nodes, true);
      case MissingConfounder =>
        var summary := Trim(d.addedSummary);
        if summary == "" {
          return;
        }
        var weight := d.addedWeight;
        if weight <= 0.0 {
          weight := DEFAULT_ADDED_CONFOUNDER_WEIGHT;
        }
        var newId := "dispute:" + SimpleSlug(summary);
        var taken := FindNode(cf.nodes, newId);
        if taken < |cf.nodes| {
          newId := newId + "-cf";
        }
        var added := CausalNode(newId, Confounder, summary, [], [], weight, map["source" := "dispute"]);
        assert added == AddedNode(graph.nodes, d);
        cf := CausalGraph(cf.nodes + [added]);
        applied := true;
        assert ClaimEffect(graph.nodes, d) == Effect(graph.nodes + [added], true);
      case ActionBlocked =>
        if d.target == "" {
          return;
        }
        var idx := FindNode(cf.nodes, d.target);
        if idx == |cf.nodes| {
          return;
        }
        cf := CausalGraph(cf.nodes[..idx] + cf.nodes[idx + 1..]);
        applied := true;
        assert ClaimEffect(graph.nodes, d) == Effect(cf.nodes, true);
      case EvidenceStale =>
        if d.target == "" {
          return;
        }
        var idx := FindNode(cf.nodes, d.target);
        if idx == |cf.nodes| {
          return;
        }
        var factor := d.staleFactor;
        if factor <= 0.0 || factor >= 1.0 {
          factor := DEFAULT_STALE_FACTOR;
        }
        var n := cf.nodes[idx];
        var stale := n.(weight := n.weight * factor, meta := n.meta["stale" := "true"]);
        assert stale == Staled(n, d);
        cf := CausalGraph(cf.nodes[idx := stale]);
        applied := true;
        assert ClaimEffect(graph.nodes, d) == Effect(graph.nodes[idx := stale], true);
      case _ =>
    }
  }

  // ---- evaluating a dispute ----

  datatype Verdict = Verdict(
    confidence: real,
    views: Views,
    plan: Option<PearlPlan>,
    attribution: seq<NodeAttribution>,
    openQuestions: seq<string>)

  datatype World = World(confidence: real, recommended: string, top: string, blocked: bool)

  datatype Report = Report(
    claim: Claim,
    original: World,
    counterfactual: World,
    plan: Option<PearlPlan>,
    attribution: seq<NodeAttribution>,
    delta: real,
    recommendationFlipped: bool,
    topChanged: bool,
    blockedFlipped: bool,
    applied: bool)

  function TopOf(rows: seq<NodeAttribution>): string {
    if rows == [] then "" else rows[0].id
  }

  /** The world the verdict itself reports, projected confidence preferred. */
  function OriginalWorld(v: Verdict): World {
    match v.plan
    case None => World(v.confidence, "", TopOf(v.attribution), false)
    case Some(p) =>
      World(if p.prediction.confidence > 0.0 then p.prediction.confidence else v.confidence,
            p.prediction.recommended, TopOf(v.attribution), p.prediction.blocked)
  }

  function Replayed(env: Env, nodes: seq<CausalNode>): World {
    var p := Plan(env, nodes).prediction;
    World(p.confidence, p.recommended, TopOf(Attributed(env, nodes)), p.blocked)
  }

  const NO_WORLD := World(0.0, "", "", false)

  function Evaluated(env: Env, v: Verdict, d: Claim): Report {
    var synced := v.(views := Synced(env, v.views));
    var original := OriginalWorld(synced);
    var effect := if synced.views.graph == None then Effect([], false) else ClaimEffect(synced.views.graph.value.nodes, d);
    if effect.nodes == [] then
      Report(d, original, NO_WORLD, None, [], -original.confidence,
             original.recommended != "", original.top != "", false, effect.applied)
    else
      var cf := Replayed(env, effect.nodes);
      Report(d, original, cf, Planned(env, effect.nodes), Attributed(env, effect.nodes),
             cf.confidence - original.confidence, original.recommended != cf.recommended,
             original.top != cf.top, original.blocked != cf.blocked, effect.applied)
  }

  method EvaluateDispute(env: Env, v: Verdict, d: Claim) returns (report: Report)
    ensures report == Evaluated(env, v, d)
  {
    hide Plan, Attributed, ClaimEffect, Synced;
    var views := Synced(env, v.views);
    var original := Snapshot(v);
    var cfGraph, applied := CausalGraph([]), false;
    if views.graph.Some? {
      cfGraph, applied := ApplyDisputeClaim(views.graph.value, d);
    }
    if |cfGraph.nodes| == 0 {
      return Report(d, original, NO_WORLD, None, [], -original.confidence,
                    original.recommended != "", original.top != "", false, applied);
    }
    var cfPlan, cfAttribution, cf := Replay(env, cfGraph);
    report := Report(d, original, cf, Some(cfPlan), cfAttribution, cf.confidence - original.confidence,
                     original.recommended != cf.recommended, original.top != cf.top,
                     original.blocked != cf.blocked, applied);
  }

  method Snapshot(v: Verdict) returns (original: World)
    ensures original == OriginalWorld(v)
  {
    original := World(v.confidence, "", "", false);
    if v.plan.Some? {
      var p := v.plan.value.prediction;
      original := original.(recommended := p.recommended, blocked := p.blocked);
      if p.confidence > 0.0 {
        original := original.(confidence := p.confidence);
      }
    }
    if |v.attribution| > 0 {
      original := original.(top := v.attribution[0].id);
    }
  }

  method Replay(env: Env, graph: CausalGraph) returns (plan: PearlPlan, rows: seq<NodeAttribution>, cf: World)
    requires graph.nodes != []
    ensures Some(plan) == Planned(env, graph.nodes) && rows == Attributed(env, graph.nodes)
    ensures cf == Replayed(env, graph.nodes)
  {
    hide Plan, Attributed;
    var cfPlan := RunPearlLoop(env, graph);
    plan := cfPlan.value;
    rows := AttributeNecessity(env, graph);
    cf := World(plan.prediction.confidence, plan.prediction.recommended, "", plan.prediction.blocked);
    if |rows| > 0 {
      cf := cf.(top := rows[0].id);
    }
  }

  /** |delta|, at most 1. */
  function AbsConfidenceSwing(r: Report): (s: real)
    ensures 0.0 <= s <= 1.0
  {
    var v := Abs(r.delta);
    if v > 1.0 then 1.0 else v
  }
}
