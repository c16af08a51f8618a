/** Hydrating a delta gives back the sibling's root, and when it does not (speculative_dyad.go). */
module DyadRoundTrip {
  import opened Text
  import opened Causal
  import opened ChainText
  import opened Leaves
  import opened Merkle
  import opened Dyad

  function AttestOf(v: LabeledVerdict): Attestation {
    Attest(v.views.graph, true)
  }

  function DeltaOf(base: LabeledVerdict, sib: LabeledVerdict): Option<DyadDelta> {
    BuildDelta(base, AttestOf(base), sib, AttestOf(sib))
  }

  function LeafSet(nodes: seq<CausalNode>): set<Digest> {
    Members(SortedLeaves(nodes))
  }

  /** Uniquely named nodes whose separated fields are free of the separator. */
  ghost predicate Proper(nodes: seq<CausalNode>) {
    UniqueIds(nodes) && AllNulFree(nodes)
  }

  lemma LeafSetHas(nodes: seq<CausalNode>, d: Digest)
    ensures d in LeafSet(nodes) <==> exists n :: n in nodes && CanonicalLeaf(n) == d
  {
    hide CanonicalLeaf, SortedLeaves;
    CanonicalLeavesAreNodeLeaves(nodes);
  }

  lemma RootByLeafSet(nodes: seq<CausalNode>, nodes': seq<CausalNode>)
    requires Proper(nodes) && Proper(nodes')
    ensures Attest(Some(CausalGraph(nodes)), true).root == Attest(Some(CausalGraph(nodes')), true).root
      <==> LeafSet(nodes) == LeafSet(nodes')
  {
    hide Attest, Root, SortedLeaves, UniqueIds, AllNulFree, NodeLeaves, DigestLE;
    AttestedRoot(CausalGraph(nodes));
    AttestedRoot(CausalGraph(nodes'));
    CanonicalLeavesAreNodeLeaves(nodes);
    CanonicalLeavesAreNodeLeaves(nodes');
    DistinctLeaves(nodes);
    DistinctLeaves(nodes');
    DistinctLeavesRoot(SortedLeaves(nodes), SortedLeaves(nodes'));
  }

  lemma AttestedLeafSet(graph: Option<CausalGraph>)
    ensures Members(Attest(graph, true).leafHashes) == LeafSet(NodesOf(graph))
    ensures Attest(graph, true).leafCount == |NodesOf(graph)| == |Attest(graph, true).leafHashes|
  {
    if NodesOf(graph) == [] {
      assert SortedLeaves([]) == [];
    }
  }

  lemma SameLeafSameNode(nodes: seq<CausalNode>, a: CausalNode, b: CausalNode)
    requires Proper(nodes) && a in nodes && b in nodes && CanonicalLeaf(a) == CanonicalLeaf(b)
    ensures a == b
  {
    hide CanonicalLeaf;
    DistinctLeaves(nodes);
    var i :| 0 <= i < |nodes| && nodes[i] == a;
    var j :| 0 <= j < |nodes| && nodes[j] == b;
  }

  // ---- three edits, seen on leaf sets ----

  lemma PushedLeaf(nodes: seq<CausalNode>, n: CausalNode)
    ensures LeafSet(nodes + [n]) == LeafSet(nodes) + {CanonicalLeaf(n)}
  {
    hide CanonicalLeaf, LeafSet;
    forall d ensures d in LeafSet(nodes + [n]) <==> d in LeafSet(nodes) + {CanonicalLeaf(n)} {
      LeafSetHas(nodes, d);
      LeafSetHas(nodes + [n], d);
      if d == CanonicalLeaf(n) {
        assert n in nodes + [n];
      }
    }
  }

  lemma DroppedProper(nodes: seq<CausalNode>, i: nat)
    requires Proper(nodes) && i < |nodes|
    ensures Proper(nodes[..i] + nodes[i + 1..])
    ensures forall n :: n in nodes[..i] + nodes[i + 1..] ==> n in nodes && n.id != nodes[i].id
    ensures forall n :: n in nodes && n != nodes[i] ==> n in nodes[..i] + nodes[i + 1..]
  {
    hide NulFree;
    var rest := nodes[..i] + nodes[i + 1..];
    assert forall k :: 0 <= k < |rest| ==> rest[k] == nodes[if k < i then k else k + 1];
  }

  lemma DroppedLeaf(nodes: seq<CausalNode>, i: nat)
    requires Proper(nodes) && i < |nodes|
    ensures Proper(nodes[..i] + nodes[i + 1..])
    ensures LeafSet(nodes[..i] + nodes[i + 1..]) == LeafSet(nodes) - {CanonicalLeaf(nodes[i])}
  {
    hide CanonicalLeaf, LeafSet, Proper;
    var rest := nodes[..i] + nodes[i + 1..];
    DroppedProper(nodes, i);
    forall d ensures d in LeafSet(rest) <==> d in LeafSet(nodes) - {CanonicalLeaf(nodes[i])} {
      LeafSetHas(nodes, d);
      LeafSetHas(rest, d);
      if d in LeafSet(rest) {
        var n :| n in rest && CanonicalLeaf(n) == d;
        if d == CanonicalLeaf(nodes[i]) {
          SameLeafSameNode(nodes, n, nodes[i]);
        }
      }
    }
  }

  lemma PatchedLeaf(nodes: seq<CausalNode>, i: nat, m: CausalNode)
    requires Proper(nodes) && i < |nodes| && m.id == nodes[i].id && NulFree(m)
    ensures Proper(nodes[i := m])
    ensures LeafSet(nodes[i := m]) == LeafSet(nodes) - {CanonicalLeaf(nodes[i])} + {CanonicalLeaf(m)}
  {
    hide CanonicalLeaf, LeafSet, NulFree;
    var patched := nodes[i := m];
    DistinctLeaves(nodes);
    forall d ensures d in LeafSet(patched) <==> d in LeafSet(nodes) - {CanonicalLeaf(nodes[i])} + {CanonicalLeaf(m)} {
      LeafSetHas(nodes, d);
      LeafSetHas(patched, d);
      if d in LeafSet(patched) {
        var n :| n in patched && CanonicalLeaf(n) == d;
        var k :| 0 <= k < |patched| && patched[k] == n;
      }
      if d == CanonicalLeaf(m) {
        assert patched[i] in patched;
      } else if d in LeafSet(nodes) && d != CanonicalLeaf(nodes[i]) {
        var n :| n in nodes && CanonicalLeaf(n) == d;
        var k :| 0 <= k < |nodes| && nodes[k] == n;
        assert patched[k] in patched;
      }
    }
  }

  // ---- what a delta found ----

  lemma {:induction false} NodeForLeafFinds(nodes: seq<CausalNode>, leaf: Digest)
    ensures var n := NodeForLeaf(nodes, leaf);
      if leaf in LeafSet(nodes) then n.Some? && n.value in nodes && CanonicalLeaf(n.value) == leaf else n == None
  {
    hide CanonicalLeaf, LeafSet;
    LeafSetHas(nodes, leaf);
    if nodes != [] {
      NodeForLeafFinds(nodes[1..], leaf);
      LeafSetHas(nodes[1..], leaf);
      assert nodes == [nodes[0]] + nodes[1..];
    }
  }

  /** One leaf on each side is not on the other, and both belong to a node of the same name. */
  predicate InPlace(g: seq<CausalNode>, h: seq<CausalNode>) {
    var missing, extra := LeafSet(g) - LeafSet(h), LeafSet(h) - LeafSet(g);
    && |g| == |h| && |missing| == 1 && |extra| == 1
    && var b, s := NodeForLeaf(g, TheOnly(missing)), NodeForLeaf(h, TheOnly(extra));
       b.Some? && s.Some? && b.value.id == s.value.id
  }

  /** The second graph has one node, and one leaf, more. */
  predicate OneMore(g: seq<CausalNode>, h: seq<CausalNode>) {
    && |h| == |g| + 1 && |LeafSet(g) - LeafSet(h)| == 0 && |LeafSet(h) - LeafSet(g)| == 1
    && NodeForLeaf(h, TheOnly(LeafSet(h) - LeafSet(g))).Some?
  }

  predicate HammingOne(g: seq<CausalNode>, h: seq<CausalNode>) {
    g != [] && h != [] && (InPlace(g, h) || OneMore(g, h) || OneMore(h, g))
  }

  /** A delta exists exactly for graphs one edit apart, and names that edit. */
  lemma DeltaShape(base: LabeledVerdict, sib: LabeledVerdict)
    ensures var g, h := NodesOf(base.views.graph), NodesOf(sib.views.graph);
      var d := DeltaOf(base, sib);
      && (d.Some? <==> HammingOne(g, h))
      && (d.Some? ==>
            && d.value.baseId == base.id && d.value.siblingId == sib.id
            && (d.value.mutation.Some? ==>
                  && InPlace(g, h)
                  && d.value.mutation == Some(Difference(NodeForLeaf(g, TheOnly(LeafSet(g) - LeafSet(h))).value,
                                                         NodeForLeaf(h, TheOnly(LeafSet(h) - LeafSet(g))).value)))
            && (d.value.mutation == None && d.value.added.Some? ==>
                  OneMore(g, h) && d.value.added == NodeForLeaf(h, TheOnly(LeafSet(h) - LeafSet(g))))
            && (d.value.mutation == None && d.value.added == None ==>
                  OneMore(h, g) && d.value.removed == Some(NodeForLeaf(g, TheOnly(LeafSet(g) - LeafSet(h))).value.id)))
  {
    hide Attest, LeafSet, NodeForLeaf, Difference, TheOnly, Members;
    AttestedLeafSet(base.views.graph);
    AttestedLeafSet(sib.views.graph);
  }

  lemma SyncedKeepsGraph(env: Env, v: Views)
    requires v.graph.Some?
    ensures Synced(env, v).graph == v.graph
  {
  }

  lemma SameIdSameIndex(nodes: seq<CausalNode>, i: nat, j: nat)
    requires UniqueIds(nodes) && i <= j < |nodes| && nodes[i].id == nodes[j].id
    ensures i == j
  {
  }

  lemma FirstNamedOf(nodes: seq<CausalNode>, n: CausalNode)
    requires UniqueIds(nodes) && n in nodes
    ensures IndexOfNode(nodes, n.id) < |nodes| && nodes[IndexOfNode(nodes, n.id)] == n
  {
    var i :| 0 <= i < |nodes| && nodes[i] == n;
    hide IndexOfNode;
    var j := IndexOfNode(nodes, n.id);
    assert j <= i;
    SameIdSameIndex(nodes, j, i);
  }

  // ---- the round trips ----

  lemma AdditionNodes(g: seq<CausalNode>, h: seq<CausalNode>, n: CausalNode)
    requires Proper(g) && Proper(h) && n in h
    requires LeafSet(g) - LeafSet(h) == {} && LeafSet(h) - LeafSet(g) == {CanonicalLeaf(n)}
    ensures Proper(g + [n]) && LeafSet(g + [n]) == LeafSet(h)
  {
    hide CanonicalLeaf, LeafSet, NulFree;
    PushedLeaf(g, n);
    forall k | 0 <= k < |g| ensures g[k].id != n.id {
      LeafSetHas(g, CanonicalLeaf(g[k]));
      LeafSetHas(h, CanonicalLeaf(g[k]));
      var m :| m in h && CanonicalLeaf(m) == CanonicalLeaf(g[k]);
      LeafMeaning(m, g[k]);
      if m.id == n.id {
        FirstNamedOf(h, m);
        FirstNamedOf(h, n);
      }
    }
    assert LeafSet(g) + {CanonicalLeaf(n)} == LeafSet(h);
  }

  /** The fields a mutation can carry: an emptied role or summary reads as "unchanged", and
      the lists are not carried at all. */
  ghost predicate Carried(b: CausalNode, s: CausalNode) {
    && (s.role != NO_ROLE || b.role == NO_ROLE)
    && (s.summary != "" || Normalized(b.summary) == "")
    && Listed(b) == Listed(s)
  }

  lemma PatchMeaning(b: CausalNode, s: CausalNode)
    requires b.id == s.id
    ensures var m := Patched(b, Difference(b, s)); m.id == b.id && (SameMechanism(m, s) <==> Carried(b, s))
    ensures NulFree(b) && NulFree(s) ==> NulFree(Patched(b, Difference(b, s)))
  {
    hide Listed, Micro, RoleName;
    var m := Patched(b, Difference(b, s));
    assert Listed(m) == Listed(b) by {
      ListedOf(m, b);
    }
    EmptyNormalized();
    hide Normalized;
  }

  lemma ListedOf(m: CausalNode, b: CausalNode)
    requires m.parents == b.parents && m.atomRefs == b.atomRefs && m.meta == b.meta
    ensures Listed(m) == Listed(b)
  {
  }

  lemma EmptyNormalized()
    ensures Normalized("") == ""
  {
  }

  lemma MutationNodes(g: seq<CausalNode>, h: seq<CausalNode>, b: CausalNode, s: CausalNode)
    requires Proper(g) && Proper(h) && b in g && s in h && b.id == s.id
    requires LeafSet(g) - LeafSet(h) == {CanonicalLeaf(b)} && LeafSet(h) - LeafSet(g) == {CanonicalLeaf(s)}
    ensures var i, m := IndexOfNode(g, b.id), Patched(b, Difference(b, s));
      && i < |g| && g[i] == b && Proper(g[i := m])
      && (LeafSet(g[i := m]) == LeafSet(h) <==> Carried(b, s))
  {
    hide CanonicalLeaf, LeafSet, NulFree, IndexOfNode, Patched, Difference, UniqueIds, Carried, SameMechanism;
    FirstNamedOf(g, b);
    PatchMeaning(b, s);
    var i, m := IndexOfNode(g, b.id), Patched(b, Difference(b, s));
    PatchedLeaf(g, i, m);
    LeafMeaning(m, s);
    SwapOne(LeafSet(g), LeafSet(h), CanonicalLeaf(b), CanonicalLeaf(s), CanonicalLeaf(m));
  }

  lemma SwapOne(a: set<Digest>, b: set<Digest>, x: Digest, y: Digest, z: Digest)
    requires a - b == {x} && b - a == {y}
    ensures a - {x} + {z} == b <==> z == y
  {
    assert y in b && y !in a && x in a && x !in b;
    if z == y {
      forall d ensures d in a - {x} + {z} <==> d in b {
        assert d in a - b <==> d == x;
        assert d in b - a <==> d == y;
      }
    }
  }

  lemma HydrateIs(env: Env, base: LabeledVerdict, delta: DyadDelta, nodes: seq<CausalNode>)
    requires base.views.graph.Some? && HydratedNodes(base.views.graph.value.nodes, delta) == Ok(nodes)
    ensures var r := Hydrate(env, base, delta);
      && r.Ok? && r.value.id == delta.siblingId && r.value.views.graph == Some(CausalGraph(nodes))
      && r.value.verdict == base.verdict && r.value.confidence == base.confidence
  {
    hide HydratedNodes;
    SyncedKeepsGraph(env, base.views.(graph := Some(CausalGraph(nodes))));
  }

  function Named(nodes: seq<CausalNode>, id: string): Option<CausalNode> {
    var i := IndexOfNode(nodes, id);
    if i < |nodes| then Some(nodes[i]) else None
  }

  /** The nodes the delta's mutation is about. */
  ghost predicate CarriedByDelta(g: seq<CausalNode>, h: seq<CausalNode>, delta: DyadDelta) {
    delta.mutation.Some? ==>
      var b, s := Named(g, delta.mutation.value.nodeId), Named(h, delta.mutation.value.nodeId);
      b.Some? && s.Some? && Carried(b.value, s.value)
  }

  lemma MutationCase(g: seq<CausalNode>, h: seq<CausalNode>, d: DyadDelta)
    requires Proper(g) && Proper(h) && InPlace(g, h)
    requires d.mutation == Some(Difference(NodeForLeaf(g, TheOnly(LeafSet(g) - LeafSet(h))).value,
                                           NodeForLeaf(h, TheOnly(LeafSet(h) - LeafSet(g))).value))
    ensures var nodes := HydratedNodes(g, d);
      nodes.Ok? && Proper(nodes.value) && (LeafSet(nodes.value) == LeafSet(h) <==> CarriedByDelta(g, h, d))
  {
    hide LeafSet, CanonicalLeaf, NodeForLeaf, Proper, Patched, Carried, IndexOfNode, UniqueIds;
    var missing, extra := LeafSet(g) - LeafSet(h), LeafSet(h) - LeafSet(g);
    NodeForLeafFinds(g, TheOnly(missing));
    NodeForLeafFinds(h, TheOnly(extra));
    var b, s := NodeForLeaf(g, TheOnly(missing)).value, NodeForLeaf(h, TheOnly(extra)).value;
    MutationNodes(g, h, b, s);
    ProperUnique(h);
    FirstNamedOf(h, s);
  }

  lemma AdditionCase(g: seq<CausalNode>, h: seq<CausalNode>, d: DyadDelta)
    requires Proper(g) && Proper(h) && OneMore(g, h)
    requires d.mutation == None && d.added == NodeForLeaf(h, TheOnly(LeafSet(h) - LeafSet(g)))
    ensures var nodes := HydratedNodes(g, d); nodes.Ok? && Proper(nodes.value) && LeafSet(nodes.value) == LeafSet(h)
  {
    hide LeafSet, CanonicalLeaf, NodeForLeaf, Proper;
    NodeForLeafFinds(h, TheOnly(LeafSet(h) - LeafSet(g)));
    AdditionNodes(g, h, d.added.value);
  }

  lemma RemovalCase(g: seq<CausalNode>, h: seq<CausalNode>, d: DyadDelta)
    requires Proper(g) && Proper(h) && OneMore(h, g)
    requires d.mutation == None && d.added == None
    requires d.removed == Some(NodeForLeaf(g, TheOnly(LeafSet(g) - LeafSet(h))).value.id)
    ensures var nodes := HydratedNodes(g, d); nodes.Ok? && Proper(nodes.value) && LeafSet(nodes.value) == LeafSet(h)
  {
    hide LeafSet, CanonicalLeaf, NodeForLeaf, Proper, IndexOfNode, UniqueIds;
    var missing := LeafSet(g) - LeafSet(h);
    NodeForLeafFinds(g, TheOnly(missing));
    var b := NodeForLeaf(g, TheOnly(missing)).value;
    ProperUnique(g);
    FirstNamedOf(g, b);
    DroppedLeaf(g, IndexOfNode(g, b.id));
    assert LeafSet(g) - {TheOnly(missing)} == LeafSet(h);
  }

  lemma DeltaNodes(base: LabeledVerdict, sib: LabeledVerdict)
    requires var g, h := NodesOf(base.views.graph), NodesOf(sib.views.graph); Proper(g) && Proper(h)
    requires DeltaOf(base, sib).Some?
    ensures var g, h, d := NodesOf(base.views.graph), NodesOf(sib.views.graph), DeltaOf(base, sib).value;
      var nodes := HydratedNodes(g, d);
      base.views.graph.Some? && nodes.Ok? && Proper(nodes.value)
      && (LeafSet(nodes.value) == LeafSet(h) <==> CarriedByDelta(g, h, d))
  {
    var g, h, d := NodesOf(base.views.graph), NodesOf(sib.views.graph), DeltaOf(base, sib).value;
    DeltaShape(base, sib);
    hide LeafSet, HydratedNodes, NodeForLeaf, DeltaOf, Proper, InPlace, OneMore, Difference;
    if d.mutation.Some? {
      MutationCase(g, h, d);
    } else if d.added.Some? {
      AdditionCase(g, h, d);
    } else {
      RemovalCase(g, h, d);
    }
  }

  lemma ProperUnique(nodes: seq<CausalNode>)
    requires Proper(nodes)
    ensures UniqueIds(nodes)
  {
  }

  /** The round trip: for properly named graphs every delta that is built can be applied, and
      the result has the sibling's root, always for additions and removals, and for a mutation
      exactly when it clears neither role nor summary and keeps the lists. The headline of the
      verdict stays the base's. */
  lemma HydrateInvertsDelta(env: Env, base: LabeledVerdict, sib: LabeledVerdict)
    requires var g, h := NodesOf(base.views.graph), NodesOf(sib.views.graph); Proper(g) && Proper(h)
    requires DeltaOf(base, sib).Some?
    ensures var d := DeltaOf(base, sib).value;
      var r := Hydrate(env, base, d);
      && r.Ok? && r.value.id == sib.id && r.value.verdict == base.verdict && r.value.confidence == base.confidence
      && (AttestOf(r.value).root == AttestOf(sib).root
          <==> CarriedByDelta(NodesOf(base.views.graph), NodesOf(sib.views.graph), d))
  {
    var g, h, d := NodesOf(base.views.graph), NodesOf(sib.views.graph), DeltaOf(base, sib).value;
    DeltaShape(base, sib);
    hide LeafSet, Hydrate, HydratedNodes, DeltaOf, Proper, CarriedByDelta, Attest;
    DeltaNodes(base, sib);
    var nodes := HydratedNodes(g, d).value;
    HydrateIs(env, base, d, nodes);
    RootByLeafSet(nodes, h);
    assert sib.views.graph == Some(CausalGraph(h));
  }

  const CAUSE := CausalNode("a", Evidence, "cause", [], [], 0.0, map[])
  const BLANKED := CausalNode("a", Evidence, "", [], [], 0.0, map[])

  lemma ClearingTheSummary()
    ensures Proper([CAUSE]) && Proper([BLANKED])
    ensures CanonicalLeaf(CAUSE) != CanonicalLeaf(BLANKED) && !Carried(CAUSE, BLANKED)
  {
    EmptyNormalized();
    CauseIsNotBlank();
    hide Normalized, Listed;
    assert NulFree(CAUSE) && NulFree(BLANKED);
    hide CanonicalLeaf, NulFree;
    LeafMeaning(CAUSE, BLANKED);
  }

  /** A concrete loss: the sibling's summary is empty, so hydration keeps the base's. */
  lemma ClearedSummaryIsLost(env: Env, base: LabeledVerdict, sib: LabeledVerdict)
    requires base.views.graph == Some(CausalGraph([CAUSE])) && sib.views.graph == Some(CausalGraph([BLANKED]))
    ensures DeltaOf(base, sib).Some?
    ensures var r := Hydrate(env, base, DeltaOf(base, sib).value); r.Ok? && AttestOf(r.value).root != AttestOf(sib).root
  {
    assert IndexOfNode([CAUSE], "a") == 0 && IndexOfNode([BLANKED], "a") == 0;
    hide LeafSet, CanonicalLeaf, NodeForLeaf, DeltaOf, Hydrate, AttestOf, HammingOne, InPlace, Proper, Carried, IndexOfNode;
    ClearingTheSummary();
    SingleEdits(CAUSE, BLANKED);
    DeltaShape(base, sib);
    HydrateInvertsDelta(env, base, sib);
  }

  /** Two single-node graphs with one name and different leaves are one mutation apart. */
  lemma SingleEdits(n: CausalNode, m: CausalNode)
    requires n.id == m.id && CanonicalLeaf(n) != CanonicalLeaf(m)
    ensures InPlace([n], [m]) && HammingOne([n], [m])
    ensures NodeForLeaf([n], TheOnly(LeafSet([n]) - LeafSet([m]))) == Some(n)
    ensures NodeForLeaf([m], TheOnly(LeafSet([m]) - LeafSet([n]))) == Some(m)
  {
    hide LeafSet, CanonicalLeaf, OneMore;
    SingleLeafSet(n);
    SingleLeafSet(m);
    assert LeafSet([n]) - LeafSet([m]) == {CanonicalLeaf(n)} && LeafSet([m]) - LeafSet([n]) == {CanonicalLeaf(m)};
  }

  lemma CauseIsNotBlank()
    ensures Normalized("cause") != ""
  {
    assert Trim("cause") == "cause";
    assert ToLower("cause") == "cause";
    CollapseCollapses("cause");
  }

  lemma SingleLeafSet(n: CausalNode)
    ensures LeafSet([n]) == {CanonicalLeaf(n)}
  {
    hide CanonicalLeaf;
    assert LeafSet([]) == {};
    hide LeafSet;
    PushedLeaf([], n);
    assert [] + [n] == [n];
  }
}
