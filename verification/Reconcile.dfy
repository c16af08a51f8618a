/** Reconciling a meta graph with the peers it summarises (speculative_reconcile.go). */
module Reconcile {
  import opened Sorting
  import opened SortedSets
  import opened Text
  import opened Causal
  import opened Leaves
  import opened Merkle
  import opened Dyad
  import opened Ratios

  datatype ReconciliationStatus = Faithful | Drifted | Fabricated

  datatype PeerGraph = PeerGraph(agentId: string, graph: Option<CausalGraph>)

  datatype Config = Config(
    faithfulSupport: real, faithfulCoverage: real, driftThreshold: real,
    fabricatedSupport: real, metaNodeMinSupport: real, weightTolerance: real)

  const UNSET_CONFIG := Config(0.0, 0.0, 0.0, 0.0, 0.0, 0.0)

  function OrDefault(x: real, d: real): real {
    if x == 0.0 then d else x
  }

  function WithDefaults(cfg: Config): Config {
    Config(OrDefault(cfg.faithfulSupport, 0.66), OrDefault(cfg.faithfulCoverage, 0.50), OrDefault(cfg.driftThreshold, 0.30),
           OrDefault(cfg.fabricatedSupport, 0.20), OrDefault(cfg.metaNodeMinSupport, 0.34), OrDefault(cfg.weightTolerance, 0.25))
  }

  datatype NodeReconciliation = NodeReconciliation(
    nodeId: string, peerSupport: real, roleAgreement: real, weightDelta: real, supportingPeers: seq<string>)

  datatype ReconciliationReport = ReconciliationReport(
    status: ReconciliationStatus, supportScore: real, coverageScore: real, driftScore: real,
    nodeReports: seq<NodeReconciliation>, unsupportedIds: seq<string>, uncoveredIds: seq<string>)

  // ---- matching one node ----

  /** Same role, same normalised summary, weight within tolerance. */
  predicate Relaxed(p: CausalNode, m: CausalNode, tolerance: real) {
    p.role == m.role && Normalized(p.summary) == Normalized(m.summary) && Abs(p.weight - m.weight) <= tolerance
  }

  function RelaxedMatch(nodes: seq<CausalNode>, m: CausalNode, tolerance: real): Option<CausalNode> {
    if nodes == [] then None
    else if Relaxed(nodes[0], m, tolerance) then Some(nodes[0])
    else RelaxedMatch(nodes[1..], m, tolerance)
  }

  /** An equal leaf if there is one, else a relaxed match. */
  function Compatible(nodes: seq<CausalNode>, m: CausalNode, leaf: Digest, tolerance: real): Option<CausalNode> {
    var exact := NodeForLeaf(nodes, leaf);
    if exact.Some? then exact else RelaxedMatch(nodes, m, tolerance)
  }

  method FindCompatibleNode(graph: Option<CausalGraph>, m: CausalNode, leaf: Digest, tolerance: real) returns (p: Option<CausalNode>)
    ensures p == Compatible(NodesOf(graph), m, leaf, tolerance)
  {
    hide CanonicalLeaf, Normalized;
    if graph == None {
      return None;
    }
    var nodes := graph.value.nodes;
    var summary := NormalizeSummary(m.summary);
    p := FindNodeForLeaf(graph, leaf);
    if p.Some? {
      return;
    }
    var i := 0;
    while i < |nodes|
      invariant 0 <= i <= |nodes| && RelaxedMatch(nodes, m, tolerance) == RelaxedMatch(nodes[i..], m, tolerance)
      decreases |nodes| - i
    {
      assert nodes[i..][1..] == nodes[i + 1..];
      var q := nodes[i];
      i := i + 1;
      if q.role != m.role {
        continue;
      }
      var other := NormalizeSummary(q.summary);
      if other != summary {
        continue;
      }
      if Abs(q.weight - m.weight) > tolerance {
        continue;
      }
      return Some(q);
    }
    return None;
  }

  datatype Match = Match(agentId: string, node: CausalNode)

  /** The peers that have a counterpart, in order. */
  function Matches(peers: seq<PeerGraph>, m: CausalNode, tolerance: real): (r: seq<Match>)
    ensures |r| <= |peers|
  {
    if peers == [] then []
    else
      var rest, p := Matches(peers[..|peers| - 1], m, tolerance), peers[|peers| - 1];
      var found := Compatible(NodesOf(p.graph), m, CanonicalLeaf(m), tolerance);
      if found == None then rest else rest + [Match(p.agentId, found.value)]
  }

  function Agents(matches: seq<Match>): (r: seq<string>)
    ensures |r| == |matches|
  {
    if matches == [] then [] else Agents(matches[..|matches| - 1]) + [matches[|matches| - 1].agentId]
  }

  function RoleHits(matches: seq<Match>, role: Role): (n: nat)
    ensures n <= |matches|
  {
    if matches == [] then 0
    else RoleHits(matches[..|matches| - 1], role) + if matches[|matches| - 1].node.role == role then 1 else 0
  }

  function WeightGap(matches: seq<Match>, w: real): (s: real)
    ensures s >= 0.0
  {
    if matches == [] then 0.0 else WeightGap(matches[..|matches| - 1], w) + Abs(matches[|matches| - 1].node.weight - w)
  }

  function Analysis(m: CausalNode, peers: seq<PeerGraph>, tolerance: real): NodeReconciliation {
    var ms := Matches(peers, m, tolerance);
    NodeReconciliation(m.id, Mean(|ms| as real, |peers|), Mean(RoleHits(ms, m.role) as real, |ms|),
                       Mean(WeightGap(ms, m.weight), |ms|), Sort(Agents(ms), StringLE))
  }

  lemma OneMoreMatch(peers: seq<PeerGraph>, i: nat, m: CausalNode, tolerance: real)
    requires i < |peers|
    ensures var found := Compatible(NodesOf(peers[i].graph), m, CanonicalLeaf(m), tolerance);
      Matches(peers[..i + 1], m, tolerance)
      == if found == None then Matches(peers[..i], m, tolerance) else Matches(peers[..i], m, tolerance) + [Match(peers[i].agentId, found.value)]
  {
    hide Compatible, CanonicalLeaf;
    assert peers[..i + 1][..i] == peers[..i];
  }

  lemma MatchTallies(ms: seq<Match>, x: Match, role: Role, w: real)
    ensures Agents(ms + [x]) == Agents(ms) + [x.agentId]
    ensures RoleHits(ms + [x], role) == RoleHits(ms, role) + if x.node.role == role then 1 else 0
    ensures WeightGap(ms + [x], w) == WeightGap(ms, w) + Abs(x.node.weight - w)
    ensures Agents([]) == [] && RoleHits([], role) == 0 && WeightGap([], w) == 0.0
  {
    hide Abs;
    assert (ms + [x])[..|ms|] == ms;
  }

  method AnalyzeMetaNode(m: CausalNode, peers: seq<PeerGraph>, tolerance: real) returns (r: NodeReconciliation)
    ensures r == Analysis(m, peers, tolerance)
  {
    hide Matches, Agents, RoleHits, WeightGap, Compatible, CanonicalLeaf, Sort, StringLE, Abs, Mean, Total;
    var supporting: seq<string>, roleHits, weightDeltas: seq<real> := [], 0, [];
    ghost var ms: seq<Match> := [];
    NoMatches(m, tolerance);
    var leaf := CanonicalLeaf(m);
    for i := 0 to |peers|
      invariant ms == Matches(peers[..i], m, tolerance) && |weightDeltas| == |supporting|
      invariant supporting == Agents(ms) && roleHits == RoleHits(ms, m.role) && Total(weightDeltas) == WeightGap(ms, m.weight)
    {
      OneMoreMatch(peers, i, m, tolerance);
      var found := FindCompatibleNode(peers[i].graph, m, leaf, tolerance);
      if found == None {
        continue;
      }
      MatchTallies(ms, Match(peers[i].agentId, found.value), m.role, m.weight);
      TotalOneMore(weightDeltas, Abs(found.value.weight - m.weight));
      ms := ms + [Match(peers[i].agentId, found.value)];
      supporting := supporting + [peers[i].agentId];
      if found.value.role == m.role {
        roleHits := roleHits + 1;
      }
      weightDeltas := weightDeltas + [Abs(found.value.weight - m.weight)];
    }
    assert peers[..|peers|] == peers;
    MeanIs(roleHits as real, |supporting|);
    MeanIs(Total(weightDeltas), |weightDeltas|);
    var support := Mean(|supporting| as real, |peers|);
    var roleAgreement := 0.0;
    if |supporting| > 0 {
      roleAgreement := roleHits as real / |supporting| as real;
    }
    var weightDelta := 0.0;
    if |weightDeltas| > 0 {
      var s := SumDeltas(weightDeltas);
      weightDelta := s / |weightDeltas| as real;
    }
    r := NodeReconciliation(m.id, support, roleAgreement, weightDelta, Sort(supporting, StringLE));
  }

  lemma NoMatches(m: CausalNode, tolerance: real)
    ensures Matches([], m, tolerance) == [] && Agents([]) == [] && RoleHits([], m.role) == 0 && WeightGap([], m.weight) == 0.0
    ensures Total([]) == 0.0
  {
  }

  function Total(xs: seq<real>): real {
    if xs == [] then 0.0 else Total(xs[..|xs| - 1]) + xs[|xs| - 1]
  }

  lemma TotalOneMore(xs: seq<real>, x: real)
    ensures Total(xs + [x]) == Total(xs) + x
  {
    assert (xs + [x])[..|xs|] == xs;
  }

  method SumDeltas(xs: seq<real>) returns (s: real)
    ensures s == Total(xs)
  {
    s := 0.0;
    for i := 0 to |xs|
      invariant s == Total(xs[..i])
    {
      assert xs[..i + 1][..i] == xs[..i];
      s := s + xs[i];
    }
    assert xs[..|xs|] == xs;
  }

  // ---- coverage of the peers by the meta ----

  function AllNodes(peers: seq<PeerGraph>): seq<CausalNode> {
    if peers == [] then [] else AllNodes(peers[..|peers| - 1]) + NodesOf(peers[|peers| - 1].graph)
  }

  function LeavesIn(nodes: seq<CausalNode>): set<Digest> {
    set n | n in nodes :: CanonicalLeaf(n)
  }

  lemma {:induction false} FoundInNodes(nodes: seq<CausalNode>, leaf: Digest)
    ensures var n := NodeForLeaf(nodes, leaf);
      if leaf in LeavesIn(nodes) then n.Some? && n.value in nodes && CanonicalLeaf(n.value) == leaf else n == None
  {
    hide CanonicalLeaf;
    if nodes != [] {
      FoundInNodes(nodes[1..], leaf);
      assert nodes == [nodes[0]] + nodes[1..];
    }
  }

  predicate Covers(meta: seq<CausalNode>, nodes: seq<CausalNode>, leaf: Digest, tolerance: real) {
    var n := NodeForLeaf(nodes, leaf);
    n.Some? && Compatible(meta, n.value, leaf, tolerance).Some?
  }

  function CoveredLeaves(meta: seq<CausalNode>, nodes: seq<CausalNode>, tolerance: real): set<Digest> {
    set l | l in LeavesIn(nodes) && Covers(meta, nodes, l, tolerance)
  }

  function IdForLeaf(nodes: seq<CausalNode>, leaf: Digest): string {
    var n := NodeForLeaf(nodes, leaf);
    if n.Some? then n.value.id else ""
  }

  function Namer(nodes: seq<CausalNode>): Digest -> string {
    (l: Digest) => IdForLeaf(nodes, l)
  }

  function LeafList(s: set<Digest>): (r: seq<Digest>)
    ensures |r| == |s| && forall d :: d in r <==> d in s
  {
    DigestOrder();
    Ascending(s, DigestLE)
  }

  function UncoveredIds(meta: seq<CausalNode>, nodes: seq<CausalNode>, tolerance: real): seq<string> {
    Sort(Map(Namer(nodes), LeafList(LeavesIn(nodes) - CoveredLeaves(meta, nodes, tolerance))), StringLE)
  }

  function CoverageScore(meta: seq<CausalNode>, nodes: seq<CausalNode>, tolerance: real): real {
    Mean(|CoveredLeaves(meta, nodes, tolerance)| as real, |LeavesIn(nodes)|)
  }

  /** One entry per distinct leaf, the first node that has it. */
  ghost predicate FirstSeen(seen: map<Digest, CausalNode>, nodes: seq<CausalNode>) {
    seen.Keys == LeavesIn(nodes) && forall l :: l in seen ==> NodeForLeaf(nodes, l) == Some(seen[l])
  }

  lemma {:induction false} FirstOfConcat(nodes: seq<CausalNode>, n: CausalNode, leaf: Digest)
    ensures NodeForLeaf(nodes + [n], leaf)
         == if NodeForLeaf(nodes, leaf).Some? then NodeForLeaf(nodes, leaf) else if CanonicalLeaf(n) == leaf then Some(n) else None
  {
    hide CanonicalLeaf;
    if nodes != [] {
      FirstOfConcat(nodes[1..], n, leaf);
      assert (nodes + [n])[1..] == nodes[1..] + [n];
    } else {
      assert (nodes + [n])[1..] == [];
    }
  }

  lemma SeenOneMore(seen: map<Digest, CausalNode>, nodes: seq<CausalNode>, n: CausalNode)
    requires FirstSeen(seen, nodes)
    ensures FirstSeen(if CanonicalLeaf(n) in seen then seen else seen[CanonicalLeaf(n) := n], nodes + [n])
  {
    hide CanonicalLeaf;
    var leaf := CanonicalLeaf(n);
    assert LeavesIn(nodes + [n]) == LeavesIn(nodes) + {leaf};
    forall l ensures NodeForLeaf(nodes + [n], l)
         == if NodeForLeaf(nodes, l).Some? then NodeForLeaf(nodes, l) else if leaf == l then Some(n) else None
    {
      FirstOfConcat(nodes, n, l);
    }
    FoundInNodes(nodes, leaf);
  }

  method CollectSeen(peers: seq<PeerGraph>) returns (seen: map<Digest, CausalNode>)
    ensures FirstSeen(seen, AllNodes(peers))
  {
    hide CanonicalLeaf, FirstSeen, AllNodes;
    seen := map[];
    NothingSeen();
    for i := 0 to |peers|
      invariant FirstSeen(seen, AllNodes(peers[..i]))
    {
      ghost var before := AllNodes(peers[..i]);
      OneMorePeer(peers, i);
      var nodes := NodesOf(peers[i].graph);
      assert before + nodes[..0] == before;
      for k := 0 to |nodes|
        invariant FirstSeen(seen, before + nodes[..k])
      {
        SeenOneMore(seen, before + nodes[..k], nodes[k]);
        Regrouped(before, nodes, k);
        var leaf := CanonicalLeaf(nodes[k]);
        if leaf !in seen {
          seen := seen[leaf := nodes[k]];
        }
      }
      assert nodes[..|nodes|] == nodes;
    }
    assert peers[..|peers|] == peers;
  }

  lemma Regrouped(before: seq<CausalNode>, nodes: seq<CausalNode>, k: nat)
    requires k < |nodes|
    ensures before + nodes[..k] + [nodes[k]] == before + nodes[..k + 1]
  {
  }

  lemma OneMorePeer(peers: seq<PeerGraph>, i: nat)
    requires i < |peers|
    ensures AllNodes(peers[..i + 1]) == AllNodes(peers[..i]) + NodesOf(peers[i].graph)
  {
    assert peers[..i + 1][..i] == peers[..i];
  }

  lemma NothingSeen()
    ensures FirstSeen(map[], AllNodes([]))
  {
  }

  method ComputeCoverage(meta: CausalGraph, peers: seq<PeerGraph>, tolerance: real) returns (score: real, uncovered: seq<string>)
    ensures score == CoverageScore(meta.nodes, AllNodes(peers), tolerance)
    ensures uncovered == UncoveredIds(meta.nodes, AllNodes(peers), tolerance)
  {
    hide FirstSeen, CoveredLeaves, LeavesIn, Compatible, NodeForLeaf, StringLE, DigestLE, CanonicalLeaf, Sort, Map, UncoveredIds, Sorted3;
    var seen := CollectSeen(peers);
    ghost var nodes := AllNodes(peers);
    SeenLeaves(seen, nodes);
    if |seen.Keys| == 0 {
      NothingToCover(meta.nodes, nodes, tolerance);
      return 0.0, [];
    }
    var covered := 0;
    uncovered := [];
    ghost var missed: seq<Digest> := [];
    var left := seen.Keys;
    NoneSorted(meta.nodes, nodes, tolerance, seen.Keys);
    while left != {}
      invariant left <= seen.Keys
      invariant Sorted3(meta.nodes, nodes, tolerance, seen.Keys - left, covered, missed, uncovered)
      decreases |left|
    {
      var leaf :| leaf in left;
      var n := seen[leaf];
      SeenAt(seen, nodes, leaf);
      var found := FindCompatibleNode(Some(meta), n, leaf, tolerance);
      CoveredIff(meta.nodes, nodes, tolerance, leaf);
      OneMoreSorted(meta.nodes, nodes, tolerance, seen.Keys - left, covered, missed, uncovered, leaf);
      if found != None {
        covered := covered + 1;
      } else {
        uncovered := uncovered + [n.id];
        missed := missed + [leaf];
      }
      assert seen.Keys - left + {leaf} == seen.Keys - (left - {leaf});
      left := left - {leaf};
    }
    assert seen.Keys - {} == LeavesIn(nodes);
    AllSorted(meta.nodes, nodes, tolerance, covered, missed, uncovered);
    uncovered := Sort(uncovered, StringLE);
    MeanIs(covered as real, |seen.Keys|);
    score := covered as real / |seen.Keys| as real;
  }

  /** The leaves looked at so far, told apart into covered (a count) and missed (a list). */
  ghost predicate Sorted3(meta: seq<CausalNode>, nodes: seq<CausalNode>, tolerance: real, done: set<Digest>,
                          covered: nat, missed: seq<Digest>, ids: seq<string>)
  {
    && covered == |done * CoveredLeaves(meta, nodes, tolerance)|
    && Distinct(missed) && (forall d :: d in missed <==> d in done - CoveredLeaves(meta, nodes, tolerance))
    && ids == Map(Namer(nodes), missed)
  }

  lemma NoneSorted(meta: seq<CausalNode>, nodes: seq<CausalNode>, tolerance: real, keys: set<Digest>)
    ensures Sorted3(meta, nodes, tolerance, keys - keys, 0, [], [])
  {
    hide CoveredLeaves;
    assert (keys - keys) * CoveredLeaves(meta, nodes, tolerance) == {};
  }

  lemma OneMoreCounted(done: set<Digest>, c: set<Digest>, leaf: Digest)
    requires leaf !in done
    ensures |(done + {leaf}) * c| == |done * c| + if leaf in c then 1 else 0
  {
    if leaf in c {
      assert (done + {leaf}) * c == done * c + {leaf};
    } else {
      assert (done + {leaf}) * c == done * c;
    }
  }

  lemma OneMoreMissed(nodes: seq<CausalNode>, missed: seq<Digest>, leaf: Digest)
    requires Distinct(missed) && leaf !in missed
    ensures Distinct(missed + [leaf])
    ensures Map(Namer(nodes), missed + [leaf]) == Map(Namer(nodes), missed) + [IdForLeaf(nodes, leaf)]
  {
    PushDistinct(missed, leaf);
    hide Distinct, IdForLeaf;
  }

  lemma OneMoreSorted(meta: seq<CausalNode>, nodes: seq<CausalNode>, tolerance: real, done: set<Digest>,
                      covered: nat, missed: seq<Digest>, ids: seq<string>, leaf: Digest)
    requires Sorted3(meta, nodes, tolerance, done, covered, missed, ids) && leaf !in done
    ensures leaf in CoveredLeaves(meta, nodes, tolerance)
      ==> Sorted3(meta, nodes, tolerance, done + {leaf}, covered + 1, missed, ids)
    ensures leaf !in CoveredLeaves(meta, nodes, tolerance)
      ==> Sorted3(meta, nodes, tolerance, done + {leaf}, covered, missed + [leaf], ids + [IdForLeaf(nodes, leaf)])
  {
    hide CoveredLeaves, Distinct, IdForLeaf, Map, Namer;
    OneMoreCounted(done, CoveredLeaves(meta, nodes, tolerance), leaf);
    if leaf !in CoveredLeaves(meta, nodes, tolerance) {
      OneMoreMissed(nodes, missed, leaf);
    }
  }

  lemma CoveredIff(meta: seq<CausalNode>, nodes: seq<CausalNode>, tolerance: real, leaf: Digest)
    requires leaf in LeavesIn(nodes)
    ensures leaf in CoveredLeaves(meta, nodes, tolerance) <==> Covers(meta, nodes, leaf, tolerance)
  {
    hide Covers;
  }

  lemma AllSorted(meta: seq<CausalNode>, nodes: seq<CausalNode>, tolerance: real, covered: nat, missed: seq<Digest>, ids: seq<string>)
    requires Sorted3(meta, nodes, tolerance, LeavesIn(nodes), covered, missed, ids)
    ensures covered == |CoveredLeaves(meta, nodes, tolerance)|
    ensures Sort(ids, StringLE) == UncoveredIds(meta, nodes, tolerance)
  {
    var c := CoveredLeaves(meta, nodes, tolerance);
    assert LeavesIn(nodes) * c == c;
    hide CoveredLeaves, LeavesIn, Distinct, Sort, Map, Namer, LeafList;
    SortedNames(nodes, missed, LeavesIn(nodes) - c);
  }

  /** The missed leaves' names, sorted, do not depend on the order in which they were met. */
  lemma SortedNames(nodes: seq<CausalNode>, missed: seq<Digest>, rest: set<Digest>)
    requires Distinct(missed) && forall d :: d in missed <==> d in rest
    ensures Sort(Map(Namer(nodes), missed), StringLE) == Sort(Map(Namer(nodes), LeafList(rest)), StringLE)
  {
    hide StringLE, DigestLE, Sort, Map, Namer, TotalPreorder, Antisymmetric, Distinct;
    DigestOrder();
    StringOrder();
    AscendingSorted(rest, DigestLE);
    DistinctSameSet(missed, LeafList(rest));
    MapOfPermutation(Namer(nodes), missed, LeafList(rest));
    SortForgetsOrder(Map(Namer(nodes), missed), Map(Namer(nodes), LeafList(rest)), StringLE);
  }

  lemma SeenLeaves(seen: map<Digest, CausalNode>, nodes: seq<CausalNode>)
    requires FirstSeen(seen, nodes)
    ensures seen.Keys == LeavesIn(nodes)
  {
  }

  lemma SeenAt(seen: map<Digest, CausalNode>, nodes: seq<CausalNode>, leaf: Digest)
    requires FirstSeen(seen, nodes) && leaf in seen
    ensures NodeForLeaf(nodes, leaf) == Some(seen[leaf])
  {
  }

  lemma NothingToCover(meta: seq<CausalNode>, nodes: seq<CausalNode>, tolerance: real)
    requires LeavesIn(nodes) == {}
    ensures CoverageScore(meta, nodes, tolerance) == 0.0 && UncoveredIds(meta, nodes, tolerance) == []
  {
    hide Covers;
    assert CoveredLeaves(meta, nodes, tolerance) == {};
    assert LeafList({}) == [];
  }
}
