/** What each ground of a dispute does to a graph, and through it to a plan (dispute.go). */
module ClaimEffects {
  import opened Text
  import opened Sorting
  import opened Causal
  import opened ChainText
  import opened Pearl
  import opened Ranking
  import opened Dispute
  import opened Counterfactuals
  import opened RoleSums

  /** The first node of a name. */
  ghost predicate FirstNamed(nodes: seq<CausalNode>, id: string, k: nat) {
    k < |nodes| && nodes[k].id == id && forall j :: 0 <= j < k ==> nodes[j].id != id
  }

  /** One node of a graph edited, the others as they were. */
  ghost predicate EditedAt(before: seq<CausalNode>, k: nat, n: CausalNode, after: seq<CausalNode>) {
    && k < |before| == |after| && after[k] == n
    && forall j :: 0 <= j < |before| && j != k ==> after[j] == before[j]
  }

  lemma FoundFirst(nodes: seq<CausalNode>, id: string)
    ensures var i := IndexOfNode(nodes, id);
      && (i == |nodes| <==> forall n :: n in nodes ==> n.id != id)
      && forall k: nat :: FirstNamed(nodes, id, k) <==> k == i < |nodes|
  {
    var i := IndexOfNode(nodes, id);
    if i < |nodes| {
      assert nodes[i] in nodes;
    }
  }

  /** A mislabelled-role claim applies exactly to a named node that is there with another role
      than the one claimed, if one is claimed; it changes that role and nothing else. */
  lemma MislabelMeaning(nodes: seq<CausalNode>, d: Claim)
    requires d.ground == MislabeledRole
    ensures var e := ClaimEffect(nodes, d);
      && (e.applied <==> d.target != "" && d.newRole != NO_ROLE
                         && exists k: nat :: FirstNamed(nodes, d.target, k) && k < |nodes| && nodes[k].role != d.newRole)
      && (!e.applied ==> e.nodes == nodes)
      && forall k: nat :: e.applied && FirstNamed(nodes, d.target, k) ==>
           k < |nodes| && EditedAt(nodes, k, nodes[k].(role := d.newRole), e.nodes)
  {
    FoundFirst(nodes, d.target);
    hide IndexOfNode, FirstNamed;
  }

  /** A stale-evidence claim applies to any named node; it scales that node's weight by the
      factor claimed, or by a quarter if that is not a fraction, and marks it as stale. */
  lemma StaleMeaning(nodes: seq<CausalNode>, d: Claim)
    requires d.ground == EvidenceStale
    ensures var e := ClaimEffect(nodes, d);
      && (e.applied <==> d.target != "" && exists n :: n in nodes && n.id == d.target)
      && (!e.applied ==> e.nodes == nodes)
      && forall k: nat :: e.applied && FirstNamed(nodes, d.target, k) ==>
           && k < |nodes|
           && EditedAt(nodes, k, nodes[k].(weight := nodes[k].weight * (if 0.0 < d.staleFactor < 1.0 then d.staleFactor else 0.25),
                                           meta := nodes[k].meta["stale" := "true"]), e.nodes)
  {
    FoundFirst(nodes, d.target);
    hide IndexOfNode, FirstNamed;
  }

  /** An action-blocked claim applies to any named node and takes it out. */
  lemma BlockedMeaning(nodes: seq<CausalNode>, d: Claim)
    requires d.ground == ActionBlocked
    ensures var e := ClaimEffect(nodes, d);
      && (e.applied <==> d.target != "" && exists n :: n in nodes && n.id == d.target)
      && (!e.applied ==> e.nodes == nodes)
      && forall k: nat :: e.applied && FirstNamed(nodes, d.target, k) ==>
           k < |nodes| && e.nodes == nodes[..k] + nodes[k + 1..]
  {
    FoundFirst(nodes, d.target);
    hide IndexOfNode, FirstNamed;
  }

  /** A missing-confounder claim applies exactly if it describes one; it adds a confounder of
      that description, of the weight claimed or 0.7, under a name made from the description. */
  lemma MissingMeaning(nodes: seq<CausalNode>, d: Claim)
    requires d.ground == MissingConfounder
    ensures var e, text := ClaimEffect(nodes, d), Trim(d.addedSummary);
      && (e.applied <==> text != "")
      && (!e.applied ==> e.nodes == nodes)
      && (e.applied ==>
            && |e.nodes| == |nodes| + 1 && e.nodes[..|nodes|] == nodes
            && var n, name := e.nodes[|nodes|], "dispute:" + SimpleSlug(text);
               && n.role == Confounder && n.summary == text && n.weight == (if d.addedWeight > 0.0 then d.addedWeight else 0.7)
               && n.parents == [] && n.atomRefs == [] && n.meta == map["source" := "dispute"]
               && n.id == (if exists k :: k in nodes && k.id == name then name + "-cf" else name))
  {
    FoundFirst(nodes, "dispute:" + SimpleSlug(Trim(d.addedSummary)));
    hide IndexOfNode, SimpleSlug, Trim, FirstNamed;
  }

  /** No other ground changes a graph. */
  lemma OtherGroundsMeaning(nodes: seq<CausalNode>, d: Claim)
    requires d.ground == Narrative || d.ground.OtherGround?
    ensures ClaimEffect(nodes, d) == Effect(nodes, false)
  {
  }

  // ---- the two worlds of a report ----

  /** The world a verdict reports: its plan's recommendation, block and confidence, where it has a
      plan, and a confidence above 0 in it; its own confidence otherwise; and what ranks first. */
  lemma OriginalMeaning(v: Verdict)
    ensures var w := OriginalWorld(v);
      && (v.attribution == [] ==> w.top == "") && (v.attribution != [] ==> w.top == v.attribution[0].id)
      && (v.plan == None ==> w.recommended == "" && !w.blocked)
      && (v.plan.Some? ==> w.recommended == v.plan.value.prediction.recommended && w.blocked == v.plan.value.prediction.blocked)
      && w.confidence == (if v.plan.Some? && v.plan.value.prediction.confidence > 0.0 then v.plan.value.prediction.confidence
                          else v.confidence)
  {
  }

  /** What ranks first in a replay: the name of the attribution of rank 1, no smaller than any. */
  lemma TopMeaning(env: Env, nodes: seq<CausalNode>)
    ensures var rows, top := Attributed(env, nodes), Replayed(env, nodes).top;
      && (Players(nodes) == [] ==> rows == [] && top == "")
      && (Players(nodes) != [] ==>
            exists row :: row in rows && row.rank == 1 && row.id == top && forall r :: r in rows ==> Abs(r.phi) <= Abs(row.phi))
  {
    hide Plan, Attributed, Players, Capped, StringLE;
    var rows := Attributed(env, nodes);
    AttributionRanked(env, nodes);
    if Players(nodes) != [] {
      assert rows[0] in rows;
      forall r | r in rows ensures Abs(r.phi) <= Abs(rows[0].phi) {
        var k :| 0 <= k < |rows| && rows[k] == r;
      }
    }
  }

  /** A report on any verdict, once its two views are in step: without a node to replay there is no
      second world to compare with, and only what is lost counts; otherwise every difference does. */
  lemma ReportMeaning(env: Env, v: Verdict, d: Claim)
    ensures var synced, r := v.(views := Synced(env, v.views)), Evaluated(env, v, d);
      var after := if synced.views.graph == None then Effect([], false) else ClaimEffect(synced.views.graph.value.nodes, d);
      && r.claim == d && r.original == OriginalWorld(synced) && r.applied == after.applied
      && r.delta == r.counterfactual.confidence - r.original.confidence
      && (r.recommendationFlipped <==> r.original.recommended != r.counterfactual.recommended)
      && (r.topChanged <==> r.original.top != r.counterfactual.top)
      && (after.nodes == [] ==> r.counterfactual == World(0.0, "", "", false) && !r.blockedFlipped && r.plan == None && r.attribution == [])
      && (after.nodes != [] ==>
            && r.counterfactual == Replayed(env, after.nodes) && (r.blockedFlipped <==> r.original.blocked != r.counterfactual.blocked)
            && r.plan == Some(Plan(env, after.nodes)) && r.attribution == Attributed(env, after.nodes))
  {
    hide Plan, Attributed, ClaimEffect, Synced, OriginalWorld;
  }

  // ---- in the weights of the graph ----

  lemma {:induction false} WeightEdited(nodes: seq<CausalNode>, k: nat, n: CausalNode, role: Role)
    requires k < |nodes|
    ensures WeightIn(nodes[k := n], role)
         == WeightIn(nodes, role) - (if nodes[k].role == role then nodes[k].weight else 0.0) + (if n.role == role then n.weight else 0.0)
  {
    if k == 0 {
      assert nodes[0 := n][1..] == nodes[1..];
    } else {
      assert nodes[k := n][1..] == nodes[1..][k - 1 := n];
      WeightEdited(nodes[1..], k - 1, n, role);
    }
  }

  lemma EditIsUpdate(before: seq<CausalNode>, k: nat, n: CausalNode, after: seq<CausalNode>)
    requires EditedAt(before, k, n, after)
    ensures after == before[k := n]
  {
  }

  /** Calling evidence a confounder moves its weight from the evidence to the load, so it flips
      the block exactly when that carries the load across 0.6, in either direction. */
  lemma EvidenceAsConfounder(env: Env, v: Verdict, nodes: seq<CausalNode>, d: Claim, k: nat)
    requires Squashing(env.sigma) && Consistent(env, v, nodes)
    requires d.ground == MislabeledRole && d.newRole == Confounder && d.target != ""
    requires FirstNamed(nodes, d.target, k) && nodes[k].role == Evidence
    ensures var r, load := Evaluated(env, v, d), WeightIn(nodes, Confounder);
      && r.applied && r.plan.Some?
      && r.plan.value.hypothesis.evidenceWeight
         == WeightIn(nodes, Evidence) - nodes[k].weight + 0.5 * WeightIn(nodes, Unknown)
      && r.plan.value.hypothesis.confounderLoad == load + nodes[k].weight
      && (r.blockedFlipped <==> (load >= 0.6) != (load + nodes[k].weight >= 0.6))
  {
    hide Plan, Attributed, ClaimEffect, Evaluated, Squashing, Consistent, WeightIn, FirstNamed, IndexOfNode;
    FirstIsThere(nodes, d.target, k);
    MislabelMeaning(nodes, d);
    assert nodes[k].role != d.newRole;
    ConsistentOriginal(env, v, nodes, d);
    var n, after := nodes[k].(role := Confounder), ClaimEffect(nodes, d).nodes;
    EditIsUpdate(nodes, k, n, after);
    WeightEdited(nodes, k, n, Evidence);
    WeightEdited(nodes, k, n, Unknown);
    WeightEdited(nodes, k, n, Confounder);
    EditedPlan(env, v, nodes, d);
    HypothesisMeaning(env, after);
    ProjectionMeaning(env, after);
    ProjectionMeaning(env, nodes);
  }

  lemma FirstIsThere(nodes: seq<CausalNode>, id: string, k: nat)
    requires FirstNamed(nodes, id, k)
    ensures k < |nodes| && nodes[k].id == id && nodes[k] in nodes
  {
  }

  lemma EditedPlan(env: Env, v: Verdict, nodes: seq<CausalNode>, d: Claim)
    requires Consistent(env, v, nodes) && ClaimEffect(nodes, d).nodes != []
    ensures Evaluated(env, v, d).plan == Some(Plan(env, ClaimEffect(nodes, d).nodes))
    ensures Evaluated(env, v, d).attribution == Attributed(env, ClaimEffect(nodes, d).nodes)
  {
    hide Plan, Attributed, ClaimEffect;
  }

  /** Evidence found stale loses its weight but for the factor, and nothing else moves. */
  lemma StaleEvidenceLoses(env: Env, v: Verdict, nodes: seq<CausalNode>, d: Claim, k: nat)
    requires Squashing(env.sigma) && Consistent(env, v, nodes)
    requires d.ground == EvidenceStale && d.target != "" && FirstNamed(nodes, d.target, k) && nodes[k].role == Evidence
    ensures var r, f := Evaluated(env, v, d), if 0.0 < d.staleFactor < 1.0 then d.staleFactor else 0.25;
      && r.applied && r.plan.Some?
      && r.plan.value.hypothesis.evidenceWeight
         == WeightIn(nodes, Evidence) - nodes[k].weight * (1.0 - f) + 0.5 * WeightIn(nodes, Unknown)
      && r.plan.value.hypothesis.confounderLoad == WeightIn(nodes, Confounder)
  {
    hide Plan, Attributed, ClaimEffect, Evaluated, Squashing, Consistent, WeightIn, FirstNamed, IndexOfNode;
    FirstIsThere(nodes, d.target, k);
    StaleMeaning(nodes, d);
    ConsistentOriginal(env, v, nodes, d);
    var f := if 0.0 < d.staleFactor < 1.0 then d.staleFactor else 0.25;
    var n, after := nodes[k].(weight := nodes[k].weight * f, meta := nodes[k].meta["stale" := "true"]), ClaimEffect(nodes, d).nodes;
    EditIsUpdate(nodes, k, n, after);
    WeightEdited(nodes, k, n, Evidence);
    WeightEdited(nodes, k, n, Unknown);
    WeightEdited(nodes, k, n, Confounder);
    EditedPlan(env, v, nodes, d);
    HypothesisMeaning(env, after);
    Remainder(nodes[k].weight, f);
  }

  lemma Remainder(w: real, f: real)
    ensures w * (1.0 - f) == w - w * f
  {
  }

  // ---- names made from descriptions ----

  /** Lower-case letters, digits, and single dashes between them. */
  ghost predicate IsSlug(s: string) {
    && 0 < |s| <= 32 && s[0] != '-' && s[|s| - 1] != '-'
    && (forall i :: 0 <= i < |s| ==> SlugChar(s[i]) || s[i] == '-')
    && (forall i :: 0 < i < |s| ==> !(s[i - 1] == '-' && s[i] == '-'))
  }

  lemma {:induction false} SlugFolds(s: string)
    requires s != "" ==> s[0] != '-'
    requires forall i :: 0 <= i < |s| ==> SlugChar(s[i]) || s[i] == '-'
    requires forall i :: 0 < i < |s| ==> !(s[i - 1] == '-' && s[i] == '-')
    ensures SlugFold(s).0 == s && (SlugFold(s).1 <==> s != "" && s[|s| - 1] == '-')
  {
    if s != "" {
      var front := s[..|s| - 1];
      SlugFolds(front);
      assert s == front + [s[|s| - 1]];
      if |s| > 1 {
        assert front[|front| - 1] == s[|s| - 2];
      }
    }
  }

  /** Such a text is its own name; so names made from names are stable. */
  lemma SlugOfSlug(s: string)
    requires IsSlug(s)
    ensures SimpleSlug(s) == s
  {
    TrimOfTrimmed(s);
    LowerOfLower(s);
    SlugFolds(s);
    hide SlugFold, Trim, ToLower;
  }

  lemma LowerOfLower(s: string)
    requires forall i :: 0 <= i < |s| ==> SlugChar(s[i]) || s[i] == '-'
    ensures ToLower(s) == s
  {
  }

  /** What separates words becomes one dash, and none at the ends. */
  lemma SlugOfPhrase()
    ensures SimpleSlug("A  b!") == "a-b" && SimpleSlug("!") == "anon"
  {
    TrimOfTrimmed("A  b!");
    TrimOfTrimmed("!");
    assert ToLower("A  b!") == "a  b!" && ToLower("!") == "!";
    PhraseFolds();
    hide Trim, ToLower, SlugFold;
    assert "a-b-"[..3] == "a-b";
    assert TrimDashes("a-b-") == "a-b";
  }

  lemma FoldStep(s: string, c: char)
    ensures var (b, dashed) := SlugFold(s);
      SlugFold(s + [c]) == if SlugChar(c) then (b + [c], false) else if !dashed && b != "" then (b + "-", true) else (b, dashed)
  {
    assert (s + [c])[..|s|] == s;
  }

  lemma PhraseFolds()
    ensures SlugFold("a  b!").0 == "a-b-" && SlugFold("!").0 == ""
  {
    hide SlugFold;
    NothingFolded();
    assert "" + ['a'] == "a" && "a" + [' '] == "a " && "a " + [' '] == "a  ";
    assert "a  " + ['b'] == "a  b" && "a  b" + ['!'] == "a  b!" && "" + ['!'] == "!";
    FoldStep("", 'a');
    FoldStep("a", ' ');
    FoldStep("a ", ' ');
    FoldStep("a  ", 'b');
    FoldStep("a  b", '!');
    FoldStep("", '!');
  }

  lemma NothingFolded()
    ensures SlugFold("") == ("", false)
  {
  }
}
