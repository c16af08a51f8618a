/** What a delta records of two verdicts, and what hydrating does with any delta whatever
    (speculative_dyad.go). */
module DeltaContents {
  import opened Sorting
  import opened Text
  import opened Causal
  import opened ChainText
  import opened Leaves
  import opened Merkle
  import opened Dyad
  import opened DyadRoundTrip
  import opened DyadPairs
  import opened DyadMatching

  /** A diff of two nodes of one name: each field that differs with its old and its new value,
      each that does not left blank. */
  ghost predicate Tells(diff: NodeDiff, b: CausalNode, s: CausalNode) {
    && diff.nodeId == b.id == s.id
    && (if b.role == s.role then diff.oldRole == NO_ROLE == diff.newRole else diff.oldRole == b.role && diff.newRole == s.role)
    && (if b.weight == s.weight then diff.oldWeight == None == diff.newWeight
        else diff.oldWeight == Some(b.weight) && diff.newWeight == Some(s.weight))
    && (if b.summary == s.summary then diff.oldSummary == "" == diff.newSummary
        else diff.oldSummary == b.summary && diff.newSummary == s.summary)
  }

  /** A leaf of the one graph and not of the other. */
  ghost predicate OnlyIn(leaf: Digest, g: seq<CausalNode>, h: seq<CausalNode>) {
    (exists n :: n in g && CanonicalLeaf(n) == leaf) && forall n :: n in h ==> CanonicalLeaf(n) != leaf
  }

  /** What is in a delta: the two names; and either two nodes of one name and their diff, or the
      one node the sibling has more, or the name of the one it has less; with the leaves that
      come and go. */
  ghost predicate Records(d: DyadDelta, base: LabeledVerdict, sib: LabeledVerdict) {
    var g, h := NodesOf(base.views.graph), NodesOf(sib.views.graph);
    && d.baseId == base.id && d.siblingId == sib.id
    && (d.leafReplaced.Some? ==> OnlyIn(d.leafReplaced.value, g, h))
    && (d.leafIntroduced.Some? ==> OnlyIn(d.leafIntroduced.value, h, g))
    && (d.mutation.Some? ==>
          && d.leafReplaced.Some? && d.leafIntroduced.Some? && d.added == None && d.removed == None && |g| == |h|
          && exists b, s :: b in g && s in h && CanonicalLeaf(b) == d.leafReplaced.value
                            && CanonicalLeaf(s) == d.leafIntroduced.value && Tells(d.mutation.value, b, s))
    && (d.mutation == None && d.added.Some? ==>
          && d.leafReplaced == None && d.removed == None && |h| == |g| + 1
          && d.added.value in h && d.leafIntroduced == Some(CanonicalLeaf(d.added.value)))
    && (d.mutation == None && d.added == None ==>
          && d.leafReplaced.Some? && d.leafIntroduced == None && |g| == |h| + 1 && d.removed.Some?
          && exists b :: b in g && CanonicalLeaf(b) == d.leafReplaced.value && d.removed.value == b.id)
  }

  lemma OnlyLeaf(g: seq<CausalNode>, h: seq<CausalNode>, leaf: Digest)
    requires leaf in LeafSet(g) - LeafSet(h)
    ensures OnlyIn(leaf, g, h)
  {
    hide CanonicalLeaf, LeafSet;
    LeafSetHas(g, leaf);
    forall n | n in h ensures CanonicalLeaf(n) != leaf {
      LeafSetHas(h, CanonicalLeaf(n));
    }
  }

  lemma DifferenceTells(b: CausalNode, s: CausalNode)
    requires b.id == s.id
    ensures Tells(Difference(b, s), b, s)
  {
  }

  lemma BuiltDelta(base: LabeledVerdict, sib: LabeledVerdict)
    ensures var g, h := NodesOf(base.views.graph), NodesOf(sib.views.graph);
      var missing, extra := LeafSet(g) - LeafSet(h), LeafSet(h) - LeafSet(g);
      var d, blank := DeltaOf(base, sib), DyadDelta(base.id, sib.id, None, None, None, None, None);
      d == if g == [] || h == [] then None
           else if |missing| == 1 && |extra| == 1 && |g| == |h| then
             var b, s := NodeForLeaf(g, TheOnly(missing)), NodeForLeaf(h, TheOnly(extra));
             if b == None || s == None || b.value.id != s.value.id then None
             else Some(blank.(leafReplaced := Some(TheOnly(missing)), leafIntroduced := Some(TheOnly(extra)),
                              mutation := Some(Difference(b.value, s.value))))
           else if |missing| == 0 && |extra| == 1 && |h| == |g| + 1 then
             var s := NodeForLeaf(h, TheOnly(extra));
             if s == None then None else Some(blank.(leafIntroduced := Some(TheOnly(extra)), added := s))
           else if |missing| == 1 && |extra| == 0 && |h| == |g| - 1 then
             var b := NodeForLeaf(g, TheOnly(missing));
             if b == None then None else Some(blank.(leafReplaced := Some(TheOnly(missing)), removed := Some(b.value.id)))
           else None
  {
    hide LeafSet, TheOnly, NodeForLeaf, Difference, Attest;
    AttestedLeafSet(base.views.graph);
    AttestedLeafSet(sib.views.graph);
  }

  /** Every delta records the edit it stands for. */
  lemma DeltaRecords(base: LabeledVerdict, sib: LabeledVerdict)
    requires DeltaOf(base, sib).Some?
    ensures Records(DeltaOf(base, sib).value, base, sib)
  {
    hide CanonicalLeaf, LeafSet, NodeForLeaf, Difference, DeltaOf, OnlyIn, Tells;
    var g, h := NodesOf(base.views.graph), NodesOf(sib.views.graph);
    var missing, extra := LeafSet(g) - LeafSet(h), LeafSet(h) - LeafSet(g);
    BuiltDelta(base, sib);
    if |missing| == 1 {
      NodeForLeafFinds(g, TheOnly(missing));
      OnlyLeaf(g, h, TheOnly(missing));
    }
    if |extra| == 1 {
      NodeForLeafFinds(h, TheOnly(extra));
      OnlyLeaf(h, g, TheOnly(extra));
    }
    if DeltaOf(base, sib).value.mutation.Some? {
      DifferenceTells(NodeForLeaf(g, TheOnly(missing)).value, NodeForLeaf(h, TheOnly(extra)).value);
    }
  }

  // ---- hydrating ----

  /** The first node of a name. */
  ghost predicate FirstNamed(nodes: seq<CausalNode>, id: string, k: nat) {
    k < |nodes| && nodes[k].id == id && forall j :: 0 <= j < k ==> nodes[j].id != id
  }

  ghost predicate Nameless(nodes: seq<CausalNode>, id: string) {
    forall n :: n in nodes ==> n.id != id
  }

  lemma NameFound(nodes: seq<CausalNode>, id: string)
    ensures var i := IndexOfNode(nodes, id);
      && (i == |nodes| <==> Nameless(nodes, id))
      && forall k: nat :: FirstNamed(nodes, id, k) <==> k == i < |nodes|
  {
    var i := IndexOfNode(nodes, id);
    if i < |nodes| {
      assert nodes[i] in nodes;
    }
  }

  /** A node edited by a diff: role, weight and summary as the diff says where it says anything. */
  ghost predicate EditedBy(n: CausalNode, diff: NodeDiff, m: CausalNode) {
    && m.id == n.id && m.parents == n.parents && m.atomRefs == n.atomRefs && m.meta == n.meta
    && m.role == (if diff.newRole == NO_ROLE then n.role else diff.newRole)
    && m.weight == (if diff.newWeight == None then n.weight else diff.newWeight.value)
    && m.summary == (if diff.newSummary == "" then n.summary else diff.newSummary)
  }

  /** What hydrating any delta comes to: which of the four errors, or which nodes. A mutation
      goes before an addition, and both before a removal; they touch the first node of the name. */
  lemma HydrationMeaning(nodes: seq<CausalNode>, d: DyadDelta)
    ensures HydratedNodes(nodes, d) == Err(MutationTargetMissing)
      <==> d.mutation.Some? && Nameless(nodes, d.mutation.value.nodeId)
    ensures HydratedNodes(nodes, d) == Err(RemovalTargetMissing)
      <==> d.mutation == None && d.added == None && d.removed.Some? && Nameless(nodes, d.removed.value)
    ensures HydratedNodes(nodes, d) == Err(NoChange) <==> d.mutation == None && d.added == None && d.removed == None
    ensures HydratedNodes(nodes, d) != Err(NoGraph)
    ensures forall k: nat :: d.mutation.Some? && FirstNamed(nodes, d.mutation.value.nodeId, k) ==>
      var r := HydratedNodes(nodes, d);
      k < |nodes| && r.Ok? && |r.value| == |nodes| && EditedBy(nodes[k], d.mutation.value, r.value[k])
      && forall j :: 0 <= j < |nodes| && j != k ==> r.value[j] == nodes[j]
    ensures d.mutation == None && d.added.Some? ==> HydratedNodes(nodes, d) == Ok(nodes + [d.added.value])
    ensures forall k: nat :: d.mutation == None && d.added == None && d.removed.Some? && FirstNamed(nodes, d.removed.value, k) ==>
      k < |nodes| && HydratedNodes(nodes, d) == Ok(nodes[..k] + nodes[k + 1..])
  {
    if d.mutation.Some? {
      NameFound(nodes, d.mutation.value.nodeId);
    }
    if d.removed.Some? {
      NameFound(nodes, d.removed.value);
    }
    hide IndexOfNode, FirstNamed, Nameless;
  }

  /** A hydrated verdict has the sibling's name and the new graph, printed anew; the headline
      and confidence stay the base's. */
  lemma HydratedVerdict(env: Env, base: LabeledVerdict, d: DyadDelta)
    ensures Hydrate(env, base, d) == Err(NoGraph) <==> base.views.graph == None
    ensures base.views.graph.Some? && HydratedNodes(base.views.graph.value.nodes, d).Err? ==>
      Hydrate(env, base, d) == Err(HydratedNodes(base.views.graph.value.nodes, d).error)
    ensures base.views.graph.Some? && HydratedNodes(base.views.graph.value.nodes, d).Ok? ==>
      var nodes, r := HydratedNodes(base.views.graph.value.nodes, d).value, Hydrate(env, base, d);
      && r.Ok? && r.value.id == d.siblingId && r.value.verdict == base.verdict && r.value.confidence == base.confidence
      && r.value.views.graph == Some(CausalGraph(nodes))
      && r.value.views.chain == (if nodes != [] then Flat(nodes) else base.views.chain)
  {
    hide Flat, Hydrated;
    if base.views.graph.Some? {
      HydrationMeaning(base.views.graph.value.nodes, d);
      hide HydratedNodes;
    }
  }

  // ---- the greedy choice ----

  ghost predicate InNameOrder(work: seq<LabeledVerdict>) {
    forall i, j :: 0 <= i < j < |work| ==> StringLE(work[i].id, work[j].id)
  }

  /** Everything a list of slots stands for comes after a name. */
  ghost predicate AllAfter(id: string, slots: seq<Slot>) {
    forall s :: s in slots ==> StringLE(id, s.base.id) && (s.sibling.Some? ==> StringLE(id, s.sibling.value.id))
  }

  /** A slot's partner is the first by name: whatever is left for later slots and comes strictly
      before the partner is no edit away from the base. */
  ghost predicate FirstChoice(s: Slot, later: seq<Slot>) {
    s.sibling.Some? ==>
      forall t :: t in later ==>
        && (!StringLE(s.sibling.value.id, t.base.id) ==> DeltaOf(s.base, t.base) == None)
        && (t.sibling.Some? && !StringLE(s.sibling.value.id, t.sibling.value.id) ==> DeltaOf(s.base, t.sibling.value) == None)
  }

  lemma {:induction false} SlotsFromWork(work: seq<LabeledVerdict>, s: Slot)
    requires s in Pairing(work)
    ensures s.base in work && (s.sibling.Some? ==> s.sibling.value in work)
    decreases |work|
  {
    hide DeltaOf;
    var v, rest := work[0], work[1..];
    var j := FirstPartner(v, rest);
    if s != Pairing(work)[0] {
      SlotsFromWork(if j == |rest| then rest else rest[..j] + rest[j + 1..], s);
    }
  }

  lemma {:induction false} SlotsInOrder(work: seq<LabeledVerdict>)
    requires InNameOrder(work)
    ensures forall i :: 0 <= i < |Pairing(work)| ==>
      AllAfter(Pairing(work)[i].base.id, Pairing(work)[i + 1..]) && FirstChoice(Pairing(work)[i], Pairing(work)[i + 1..])
    decreases |work|
  {
    hide DeltaOf, StringLE;
    if work != [] {
      var v, rest := work[0], work[1..];
      var j := FirstPartner(v, rest);
      var left := if j == |rest| then rest else rest[..j] + rest[j + 1..];
      assert InNameOrder(left);
      SlotsInOrder(left);
      var slots := Pairing(work);
      assert slots[1..] == Pairing(left);
      forall i | 0 <= i < |slots| ensures AllAfter(slots[i].base.id, slots[i + 1..]) && FirstChoice(slots[i], slots[i + 1..]) {
        if i > 0 {
          assert slots[i] == Pairing(left)[i - 1] && slots[i + 1..] == Pairing(left)[i..];
        } else {
          FirstSlot(work, j, left);
        }
      }
    }
  }

  lemma FirstSlot(work: seq<LabeledVerdict>, j: nat, left: seq<LabeledVerdict>)
    requires InNameOrder(work) && work != [] && j == FirstPartner(work[0], work[1..])
    requires left == if j == |work[1..]| then work[1..] else work[1..][..j] + work[1..][j + 1..]
    ensures AllAfter(work[0].id, Pairing(left))
    ensures j < |work[1..]| ==> FirstChoice(Slot(work[0], Some(work[1..][j])), Pairing(left))
  {
    hide DeltaOf, StringLE, Pairing;
    var rest := work[1..];
    forall s | s in Pairing(left)
      ensures StringLE(work[0].id, s.base.id) && (s.sibling.Some? ==> StringLE(work[0].id, s.sibling.value.id))
      ensures j < |rest| && !StringLE(rest[j].id, s.base.id) ==> DeltaOf(work[0], s.base) == None
      ensures j < |rest| && s.sibling.Some? && !StringLE(rest[j].id, s.sibling.value.id) ==> DeltaOf(work[0], s.sibling.value) == None
    {
      SlotsFromWork(left, s);
      LeftAfter(work, j, s.base);
      if s.sibling.Some? {
        LeftAfter(work, j, s.sibling.value);
      }
    }
  }

  lemma LeftAfter(work: seq<LabeledVerdict>, j: nat, t: LabeledVerdict)
    requires InNameOrder(work) && work != [] && j == FirstPartner(work[0], work[1..])
    requires t in if j == |work[1..]| then work[1..] else work[1..][..j] + work[1..][j + 1..]
    ensures StringLE(work[0].id, t.id)
    ensures j < |work[1..]| && !StringLE(work[1..][j].id, t.id) ==> DeltaOf(work[0], t) == None
  {
    hide DeltaOf, StringLE;
    var rest := work[1..];
    var i :| 0 <= i < |rest| && rest[i] == t;
    assert work[i + 1] == t;
    NoEarlierPartner(work[0], rest);
    if j < |rest| && j < i {
      assert work[j + 1] == rest[j];
    }
  }

  lemma {:induction false} NoEarlierPartner(v: LabeledVerdict, rest: seq<LabeledVerdict>)
    ensures forall i :: 0 <= i < FirstPartner(v, rest) ==> DeltaOf(v, rest[i]) == None
  {
    hide DeltaOf;
    if rest != [] && DeltaOf(v, rest[0]) == None {
      NoEarlierPartner(v, rest[1..]);
      assert forall i :: 0 < i < |rest| ==> rest[i] == rest[1..][i - 1];
    }
  }

  /** Compression goes through the verdicts by name: bases come in order of name, before all that
      is left after them, and each is paired with the first by name that is one edit away. */
  lemma CompressionIsGreedy(verdicts: seq<LabeledVerdict>)
    ensures var slots := Slots(verdicts);
      forall i :: 0 <= i < |slots| ==> AllAfter(slots[i].base.id, slots[i + 1..]) && FirstChoice(slots[i], slots[i + 1..])
  {
    hide Pairing, StringLE, DeltaOf;
    ByVerdictIdOrders();
    SortSorts(verdicts, ByVerdictId);
    SlotsInOrder(Sort(verdicts, ByVerdictId));
  }

  lemma ByVerdictIdOrders()
    ensures TotalPreorder(ByVerdictId)
  {
    StringOrder();
    hide StringLE;
  }

  lemma {:induction false} DeltasAre(slots: seq<Slot>, d: DyadDelta)
    requires Related(slots)
    ensures d in Deltas(slots) <==> exists s :: s in slots && s.sibling.Some? && DeltaOf(s.base, s.sibling.value) == Some(d)
  {
    hide DeltaOf;
    if slots != [] {
      DeltasAre(slots[1..], d);
      assert slots == [slots[0]] + slots[1..];
    }
  }

  /** The deltas reported are those of the paired slots. */
  lemma ReportedDeltas(verdicts: seq<LabeledVerdict>, d: DyadDelta)
    ensures d in Report(verdicts).deltas
      <==> exists s :: s in Slots(verdicts) && s.sibling.Some? && DeltaOf(s.base, s.sibling.value) == Some(d)
    ensures Report(verdicts).slotsBefore == |verdicts| && Report(verdicts).slotsAfter == |Slots(verdicts)|
  {
    hide DeltaOf, Slots;
    SlotsRelated(verdicts);
    DeltasAre(Slots(verdicts), d);
  }
}
