/** Deltas between verdicts that differ in one node (speculative_dyad.go). */
module Dyad {
  import opened Text
  import opened Causal
  import opened ChainText
  import opened Merkle

  /** The graph of a verdict is the typed half of its two views. */
  datatype LabeledVerdict = LabeledVerdict(id: string, verdict: string, confidence: real, views: Views)

  /** An empty role or summary and an absent weight mean "unchanged". */
  datatype NodeDiff = NodeDiff(
    nodeId: string,
    oldRole: Role, newRole: Role,
    oldWeight: Option<real>, newWeight: Option<real>,
    oldSummary: string, newSummary: string)

  datatype DyadDelta = DyadDelta(
    baseId: string,
    siblingId: string,
    leafReplaced: Option<Digest>,
    leafIntroduced: Option<Digest>,
    mutation: Option<NodeDiff>,
    added: Option<CausalNode>,
    removed: Option<string>)

  datatype HydrateError = NoGraph | MutationTargetMissing | RemovalTargetMissing | NoChange

  datatype Result<+T> = Ok(value: T) | Err(error: HydrateError)

  // ---- building a delta ----

  function NodeForLeaf(nodes: seq<CausalNode>, leaf: Digest): Option<CausalNode> {
    if nodes == [] then None
    else if CanonicalLeaf(nodes[0]) == leaf then Some(nodes[0])
    else NodeForLeaf(nodes[1..], leaf)
  }

  method FindNodeForLeaf(graph: Option<CausalGraph>, leaf: Digest) returns (node: Option<CausalNode>)
    ensures node == NodeForLeaf(NodesOf(graph), leaf)
  {
    hide CanonicalLeaf;
    if graph == None {
      return None;
    }
    var nodes := graph.value.nodes;
    var i := 0;
    while i < |nodes|
      invariant 0 <= i <= |nodes| && NodeForLeaf(nodes, leaf) == NodeForLeaf(nodes[i..], leaf)
      decreases |nodes| - i
    {
      if CanonicalLeaf(nodes[i]) == leaf {
        return Some(nodes[i]);
      }
      assert nodes[i..][1..] == nodes[i + 1..];
      i := i + 1;
    }
    node := None;
  }

  function Difference(base: CausalNode, sib: CausalNode): NodeDiff {
    NodeDiff(
      base.id,
      if base.role != sib.role then base.role else NO_ROLE,
      if base.role != sib.role then sib.role else NO_ROLE,
      if base.weight != sib.weight then Some(base.weight) else None,
      if base.weight != sib.weight then Some(sib.weight) else None,
      if base.summary != sib.summary then base.summary else "",
      if base.summary != sib.summary then sib.summary else "")
  }

  function TheOnly(s: set<Digest>): (x: Digest)
    requires |s| == 1
    ensures s == {x}
  {
    OnlyOne(s);
    var x :| x in s;
    x
  }

  lemma OnlyOne(s: set<Digest>)
    requires |s| == 1
    ensures exists x :: s == {x}
    ensures forall x, y :: x in s && y in s ==> x == y
  {
    var x :| x in s;
    assert |s - {x}| == 0;
    assert s == {x};
  }

  /** Exactly one node changed in place, was added, or was removed; otherwise no delta. */
  function BuildDelta(base: LabeledVerdict, baseAtt: Attestation, sib: LabeledVerdict, sibAtt: Attestation): Option<DyadDelta> {
    var missing := Members(baseAtt.leafHashes) - Members(sibAtt.leafHashes);
    var extra := Members(sibAtt.leafHashes) - Members(baseAtt.leafHashes);
    var blank := DyadDelta(base.id, sib.id, None, None, None, None, None);
    if baseAtt.leafCount == 0 || sibAtt.leafCount == 0 || baseAtt.leafHashes == [] || sibAtt.leafHashes == [] then None
    else if |missing| == 1 && |extra| == 1 && baseAtt.leafCount == sibAtt.leafCount then
      var b, s := NodeForLeaf(NodesOf(base.views.graph), TheOnly(missing)), NodeForLeaf(NodesOf(sib.views.graph), TheOnly(extra));
      if b == None || s == None || b.value.id != s.value.id then None
      else Some(blank.(leafReplaced := Some(TheOnly(missing)), leafIntroduced := Some(TheOnly(extra)),
                       mutation := Some(Difference(b.value, s.value))))
    else if |missing| == 0 && |extra| == 1 && sibAtt.leafCount == baseAtt.leafCount + 1 then
      var s := NodeForLeaf(NodesOf(sib.views.graph), TheOnly(extra));
      if s == None then None else Some(blank.(leafIntroduced := Some(TheOnly(extra)), added := s))
    else if |missing| == 1 && |extra| == 0 && sibAtt.leafCount == baseAtt.leafCount - 1 then
      var b := NodeForLeaf(NodesOf(base.views.graph), TheOnly(missing));
      if b == None then None else Some(blank.(leafReplaced := Some(TheOnly(missing)), removed := Some(b.value.id)))
    else None
  }

  lemma MemberIsOnly(s: set<Digest>, listed: seq<Digest>)
    requires |listed| == |s| && forall i :: 0 <= i < |listed| ==> listed[i] in s
    ensures |s| == 1 ==> listed[0] == TheOnly(s)
  {
    assert |s| == 1 ==> listed[0] in s;
  }

  lemma OneLess(a: set<Digest>, b: set<Digest>, left: set<Digest>, l: Digest)
    requires l in left && left <= a
    ensures |(a - (left - {l})) - b| == |(a - left) - b| + if l in b then 0 else 1
  {
    var before, after := (a - left) - b, (a - (left - {l})) - b;
    if l in b {
      assert after == before;
    } else {
      assert after == before + {l};
    }
  }

  /** The members of one set that are not in the other, as the map iteration happens to list them. */
  method ListDifference(a: set<Digest>, b: set<Digest>) returns (out: seq<Digest>)
    ensures |out| == |a - b| && forall i :: 0 <= i < |out| ==> out[i] in a - b
  {
    out := [];
    var left := a;
    assert (a - a) - b == {};
    while left != {}
      invariant left <= a && |out| == |(a - left) - b|
      invariant forall i :: 0 <= i < |out| ==> out[i] in a - b
      decreases |left|
    {
      var l :| l in left;
      OneLess(a, b, left, l);
      if l !in b {
        out := out + [l];
      }
      left := left - {l};
    }
    assert (a - {}) - b == a - b;
  }

  method BuildDyadDelta(base: LabeledVerdict, baseAtt: Attestation, sib: LabeledVerdict, sibAtt: Attestation)
    returns (delta: Option<DyadDelta>)
    ensures delta == BuildDelta(base, baseAtt, sib, sibAtt)
  {
    hide NodeForLeaf, Difference;
    if baseAtt.leafCount == 0 || sibAtt.leafCount == 0 {
      return None;
    }
    if |baseAtt.leafHashes| == 0 || |sibAtt.leafHashes| == 0 {
      return None;
    }
    var baseSet, sibSet := Members(baseAtt.leafHashes), Members(sibAtt.leafHashes);
    var missing := ListDifference(baseSet, sibSet);
    var extra := ListDifference(sibSet, baseSet);
    hide Members;
    MemberIsOnly(baseSet - sibSet, missing);
    MemberIsOnly(sibSet - baseSet, extra);
    var d := DyadDelta(base.id, sib.id, None, None, None, None, None);
    if |missing| == 1 && |extra| == 1 && baseAtt.leafCount == sibAtt.leafCount {
      var baseNode := FindNodeForLeaf(base.views.graph, missing[0]);
      var sibNode := FindNodeForLeaf(sib.views.graph, extra[0]);
      if baseNode == None || sibNode == None {
        return None;
      }
      if baseNode.value.id != sibNode.value.id {
        return None;
      }
      d := d.(leafReplaced := Some(missing[0]), leafIntroduced := Some(extra[0]),
              mutation := Some(Difference(baseNode.value, sibNode.value)));
      return Some(d);
    } else if |missing| == 0 && |extra| == 1 && sibAtt.leafCount == baseAtt.leafCount + 1 {
      var sibNode := FindNodeForLeaf(sib.views.graph, extra[0]);
      if sibNode == None {
        return None;
      }
      d := d.(leafIntroduced := Some(extra[0]), added := sibNode);
      return Some(d);
    } else if |missing| == 1 && |extra| == 0 && sibAtt.leafCount == baseAtt.leafCount - 1 {
      var baseNode := FindNodeForLeaf(base.views.graph, missing[0]);
      if baseNode == None {
        return None;
      }
      d := d.(leafReplaced := Some(missing[0]), removed := Some(baseNode.value.id));
      return Some(d);
    }
    delta := None;
  }

  // ---- applying a delta ----

  function Patched(n: CausalNode, diff: NodeDiff): CausalNode {
    n.(role := if diff.newRole != NO_ROLE then diff.newRole else n.role,
       weight := if diff.newWeight.Some? then diff.newWeight.value else n.weight,
       summary := if diff.newSummary != "" then diff.newSummary else n.summary)
  }

  function HydratedNodes(nodes: seq<CausalNode>, delta: DyadDelta): Result<seq<CausalNode>> {
    if delta.mutation.Some? then
      var i := IndexOfNode(nodes, delta.mutation.value.nodeId);
      if i == |nodes| then Err(MutationTargetMissing) else Ok(nodes[i := Patched(nodes[i], delta.mutation.value)])
    else if delta.added.Some? then Ok(nodes + [delta.added.value])
    else if delta.removed.Some? then
      var i := IndexOfNode(nodes, delta.removed.value);
      if i == |nodes| then Err(RemovalTargetMissing) else Ok(nodes[..i] + nodes[i + 1..])
    else Err(NoChange)
  }

  function Hydrate(env: Env, base: LabeledVerdict, delta: DyadDelta): Result<LabeledVerdict> {
    if base.views.graph == None then Err(NoGraph)
    else
      match HydratedNodes(base.views.graph.value.nodes, delta)
      case Err(e) => Err(e)
      case Ok(nodes) =>
        Ok(base.(id := delta.siblingId, views := Synced(env, base.views.(graph := Some(CausalGraph(nodes))))))
  }

  method CloneCausalGraph(g: Option<CausalGraph>) returns (cp: Option<CausalGraph>)
    ensures cp == g
  {
    if g == None {
      return None;
    }
    var nodes: seq<CausalNode> := [];
    for i := 0 to |g.value.nodes|
      invariant nodes == g.value.nodes[..i]
    {
      nodes := nodes + [g.value.nodes[i]];
    }
    assert nodes == g.value.nodes;
    cp := Some(CausalGraph(nodes));
  }

  /** Edits the first node of that name in place and stops. */
  method MutateNode(nodes: seq<CausalNode>, diff: NodeDiff) returns (edited: seq<CausalNode>, applied: bool)
    ensures var i := IndexOfNode(nodes, diff.nodeId);
      && (applied <==> i < |nodes|)
      && edited == if i < |nodes| then nodes[i := Patched(nodes[i], diff)] else nodes
  {
    hide Patched;
    edited := nodes;
    for i := 0 to |nodes|
      invariant edited == nodes && forall k :: 0 <= k < i ==> nodes[k].id != diff.nodeId
    {
      if edited[i].id != diff.nodeId {
        continue;
      }
      FirstNodeIs(nodes, diff.nodeId, i);
      edited := edited[i := Patched(edited[i], diff)];
      return edited, true;
    }
    applied := false;
  }

  /** Copies every node but the first of that name. */
  method RemoveNode(nodes: seq<CausalNode>, id: string) returns (filtered: seq<CausalNode>, removed: bool)
    ensures var i := IndexOfNode(nodes, id);
      && (removed <==> i < |nodes|)
      && filtered == if i < |nodes| then nodes[..i] + nodes[i + 1..] else nodes
  {
    hide IndexOfNode;
    filtered, removed := [], false;
    ghost var j := IndexOfNode(nodes, id);
    for i := 0 to |nodes|
      invariant removed <==> j < i
      invariant filtered == if removed then nodes[..j] + nodes[j + 1..i] else nodes[..i]
    {
      if !removed && nodes[i].id == id {
        FirstNodeIs(nodes, id, i);
        removed := true;
        continue;
      }
      filtered := filtered + [nodes[i]];
    }
  }

  method DyadHydrate(env: Env, base: LabeledVerdict, delta: DyadDelta) returns (r: Result<LabeledVerdict>)
    ensures r == Hydrate(env, base, delta)
  {
    hide Patched, Synced, IndexOfNode;
    if base.views.graph == None {
      return Err(NoGraph);
    }
    var cloned := CloneCausalGraph(base.views.graph);
    var nodes := cloned.value.nodes;
    if delta.mutation.Some? {
      var edited, applied := MutateNode(nodes, delta.mutation.value);
      if !applied {
        return Err(MutationTargetMissing);
      }
      nodes := edited;
    } else if delta.added.Some? {
      nodes := nodes + [delta.added.value];
    } else if delta.removed.Some? {
      var filtered, removed := RemoveNode(nodes, delta.removed.value);
      if !removed {
        return Err(RemovalTargetMissing);
      }
      nodes := filtered;
    } else {
      return Err(NoChange);
    }
    r := Ok(base.(id := delta.siblingId, views := Synced(env, base.views.(graph := Some(CausalGraph(nodes))))));
  }

  lemma FirstNodeIs(nodes: seq<CausalNode>, id: string, i: nat)
    requires i < |nodes| && nodes[i].id == id && forall k :: 0 <= k < i ==> nodes[k].id != id
    ensures IndexOfNode(nodes, id) == i
  {
  }
}
