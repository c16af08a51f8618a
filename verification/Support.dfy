/** What a reconciliation report counts, in terms of the meta's and the peers' nodes alone
    (speculative_reconcile.go). */
module Support {
  import opened Sorting
  import opened SortedSets
  import opened Tallies
  import opened Text
  import opened Causal
  import opened Leaves
  import opened Merkle
  import opened Dyad
  import opened Ratios
  import opened Reconcile
  import opened Faithfulness

  /** The same hashed mechanism, or role and normalised summary the same and weights near. */
  ghost predicate Corresponds(n: CausalNode, m: CausalNode, tolerance: real) {
    || CanonicalLeaf(n) == CanonicalLeaf(m)
    || (n.role == m.role && Normalized(n.summary) == Normalized(m.summary) && -tolerance <= n.weight - m.weight <= tolerance)
  }

  /** A peer with a node that corresponds. */
  ghost predicate Backs(p: PeerGraph, m: CausalNode, tolerance: real) {
    p.graph.Some? && exists n :: n in p.graph.value.nodes && Corresponds(n, m, tolerance)
  }

  ghost function Backing(m: CausalNode, tolerance: real): PeerGraph -> bool {
    (p: PeerGraph) => Backs(p, m, tolerance)
  }

  ghost function BackingAs(m: CausalNode, tolerance: real, id: string): PeerGraph -> bool {
    (p: PeerGraph) => Backs(p, m, tolerance) && p.agentId == id
  }

  /** The node of a peer that speaks for it: the first with the same leaf, or, if there is none,
      the first that corresponds. */
  ghost predicate SpeaksAt(nodes: seq<CausalNode>, m: CausalNode, tolerance: real, k: nat) {
    && k < |nodes|
    && (if exists n :: n in nodes && CanonicalLeaf(n) == CanonicalLeaf(m) then
          CanonicalLeaf(nodes[k]) == CanonicalLeaf(m) && forall j :: 0 <= j < k ==> CanonicalLeaf(nodes[j]) != CanonicalLeaf(m)
        else
          Corresponds(nodes[k], m, tolerance) && forall j :: 0 <= j < k ==> !Corresponds(nodes[j], m, tolerance))
  }

  /** A peer whose node speaks for it in the role of the meta node. */
  ghost function Agreed(m: CausalNode, tolerance: real): PeerGraph -> bool {
    (p: PeerGraph) => Agrees(NodesOf(p.graph), m, tolerance)
  }

  ghost predicate Agrees(nodes: seq<CausalNode>, m: CausalNode, tolerance: real) {
    exists k: nat :: SpeaksAt(nodes, m, tolerance, k) && k < |nodes| && nodes[k].role == m.role
  }

  /** How far the weight of a backing peer's node is off; 0 without one. */
  ghost function Gap(nodes: seq<CausalNode>, m: CausalNode, tolerance: real): real {
    if k: nat :| SpeaksAt(nodes, m, tolerance, k) then Abs(nodes[k].weight - m.weight) else 0.0
  }

  ghost function Gaps(peers: seq<PeerGraph>, m: CausalNode, tolerance: real): real {
    if peers == [] then 0.0
    else Gaps(peers[..|peers| - 1], m, tolerance) + Gap(NodesOf(peers[|peers| - 1].graph), m, tolerance)
  }

  // ---- the matching, peer by peer ----

  lemma CorrespondsIsCounterpart(n: CausalNode, m: CausalNode, tolerance: real)
    ensures Corresponds(n, m, tolerance) <==> Counterpart(n, m, tolerance)
  {
    hide CanonicalLeaf, Normalized;
  }

  lemma BacksIffFound(p: PeerGraph, m: CausalNode, tolerance: real)
    ensures Backs(p, m, tolerance) <==> Compatible(NodesOf(p.graph), m, CanonicalLeaf(m), tolerance).Some?
  {
    hide Compatible, CanonicalLeaf, Counterpart, Corresponds;
    CompatibleMeaning(NodesOf(p.graph), m, tolerance);
    forall n ensures Corresponds(n, m, tolerance) <==> Counterpart(n, m, tolerance) {
      CorrespondsIsCounterpart(n, m, tolerance);
    }
  }

  lemma {:induction false} FirstLeafAt(nodes: seq<CausalNode>, leaf: Digest) returns (k: nat)
    requires NodeForLeaf(nodes, leaf).Some?
    ensures k < |nodes| && nodes[k] == NodeForLeaf(nodes, leaf).value && CanonicalLeaf(nodes[k]) == leaf
    ensures forall j :: 0 <= j < k ==> CanonicalLeaf(nodes[j]) != leaf
  {
    hide CanonicalLeaf;
    if CanonicalLeaf(nodes[0]) == leaf {
      k := 0;
    } else {
      var i := FirstLeafAt(nodes[1..], leaf);
      k := i + 1;
      assert forall j :: 0 < j < k ==> nodes[j] == nodes[1..][j - 1];
    }
  }

  lemma {:induction false} FirstRelaxedAt(nodes: seq<CausalNode>, m: CausalNode, tolerance: real) returns (k: nat)
    requires RelaxedMatch(nodes, m, tolerance).Some?
    ensures k < |nodes| && nodes[k] == RelaxedMatch(nodes, m, tolerance).value && Relaxed(nodes[k], m, tolerance)
    ensures forall j :: 0 <= j < k ==> !Relaxed(nodes[j], m, tolerance)
  {
    hide Relaxed;
    if Relaxed(nodes[0], m, tolerance) {
      k := 0;
    } else {
      var i := FirstRelaxedAt(nodes[1..], m, tolerance);
      k := i + 1;
      assert forall j :: 0 < j < k ==> nodes[j] == nodes[1..][j - 1];
    }
  }

  lemma SpeakerIsFound(nodes: seq<CausalNode>, m: CausalNode, tolerance: real) returns (k: nat)
    requires Compatible(nodes, m, CanonicalLeaf(m), tolerance).Some?
    ensures SpeaksAt(nodes, m, tolerance, k) && nodes[k] == Compatible(nodes, m, CanonicalLeaf(m), tolerance).value
  {
    hide CanonicalLeaf, NodeForLeaf, RelaxedMatch, Normalized;
    FoundInNodes(nodes, CanonicalLeaf(m));
    if NodeForLeaf(nodes, CanonicalLeaf(m)).Some? {
      k := FirstLeafAt(nodes, CanonicalLeaf(m));
    } else {
      k := FirstRelaxedAt(nodes, m, tolerance);
      assert forall j :: 0 <= j < |nodes| ==> nodes[j] in nodes;
    }
  }

  lemma SpeakerIsUnique(nodes: seq<CausalNode>, m: CausalNode, tolerance: real, i: nat, j: nat)
    requires SpeaksAt(nodes, m, tolerance, i) && SpeaksAt(nodes, m, tolerance, j)
    ensures i == j
  {
    hide CanonicalLeaf, Corresponds;
  }

  lemma GapIs(nodes: seq<CausalNode>, m: CausalNode, tolerance: real)
    ensures var found := Compatible(nodes, m, CanonicalLeaf(m), tolerance);
      Gap(nodes, m, tolerance) == if found.Some? then Abs(found.value.weight - m.weight) else 0.0
  {
    hide Compatible, CanonicalLeaf, SpeaksAt, Abs;
    if Compatible(nodes, m, CanonicalLeaf(m), tolerance).Some? {
      var k := SpeakerIsFound(nodes, m, tolerance);
      forall i: nat | SpeaksAt(nodes, m, tolerance, i) ensures i == k {
        SpeakerIsUnique(nodes, m, tolerance, i, k);
      }
    } else {
      forall i: nat ensures !SpeaksAt(nodes, m, tolerance, i) {
        NobodySpeaks(nodes, m, tolerance, i);
      }
    }
  }

  lemma NobodySpeaks(nodes: seq<CausalNode>, m: CausalNode, tolerance: real, i: nat)
    requires Compatible(nodes, m, CanonicalLeaf(m), tolerance) == None
    ensures !SpeaksAt(nodes, m, tolerance, i)
  {
    hide Compatible, CanonicalLeaf, Corresponds, Counterpart;
    CompatibleMeaning(nodes, m, tolerance);
    if i < |nodes| {
      CorrespondsIsCounterpart(nodes[i], m, tolerance);
      LeafCorresponds(nodes[i], m, tolerance);
    }
  }

  lemma LeafCorresponds(n: CausalNode, m: CausalNode, tolerance: real)
    ensures CanonicalLeaf(n) == CanonicalLeaf(m) ==> Corresponds(n, m, tolerance)
  {
    hide CanonicalLeaf;
  }

  lemma AgreesIs(nodes: seq<CausalNode>, m: CausalNode, tolerance: real)
    ensures var found := Compatible(nodes, m, CanonicalLeaf(m), tolerance);
      Agrees(nodes, m, tolerance) <==> found.Some? && found.value.role == m.role
  {
    hide Compatible, CanonicalLeaf, SpeaksAt;
    if Compatible(nodes, m, CanonicalLeaf(m), tolerance).Some? {
      var k := SpeakerIsFound(nodes, m, tolerance);
      SpeakerInRange(nodes, m, tolerance, k);
      forall i: nat | SpeaksAt(nodes, m, tolerance, i) ensures i == k {
        SpeakerIsUnique(nodes, m, tolerance, i, k);
      }
    } else {
      forall i: nat ensures !SpeaksAt(nodes, m, tolerance, i) {
        NobodySpeaks(nodes, m, tolerance, i);
      }
    }
  }

  lemma SpeakerInRange(nodes: seq<CausalNode>, m: CausalNode, tolerance: real, k: nat)
    requires SpeaksAt(nodes, m, tolerance, k)
    ensures k < |nodes|
  {
  }

  lemma {:induction false} AgreementCounted(peers: seq<PeerGraph>, m: CausalNode, tolerance: real)
    ensures RoleHits(Matches(peers, m, tolerance), m.role) == Tally(peers, Agreed(m, tolerance))
  {
    hide Compatible, CanonicalLeaf, Backs, Tally, Matches, RoleHits, Agrees, Abs;
    if peers == [] {
      NoMatches(m, tolerance);
      TallyNone(Agreed(m, tolerance));
    } else {
      var front, p := peers[..|peers| - 1], peers[|peers| - 1];
      AgreementCounted(front, m, tolerance);
      var found := LastMatch(peers, m, tolerance);
      AgreesIs(NodesOf(p.graph), m, tolerance);
      TallyLast(peers, Agreed(m, tolerance));
      if found.Some? {
        MatchTallies(Matches(front, m, tolerance), Match(p.agentId, found.value), m.role, m.weight);
      }
    }
  }

  lemma LastMatch(peers: seq<PeerGraph>, m: CausalNode, tolerance: real) returns (found: Option<CausalNode>)
    requires peers != []
    ensures var front, p := peers[..|peers| - 1], peers[|peers| - 1];
      && found == Compatible(NodesOf(p.graph), m, CanonicalLeaf(m), tolerance)
      && (found.Some? <==> Backs(p, m, tolerance))
      && Matches(peers, m, tolerance)
         == if found == None then Matches(front, m, tolerance) else Matches(front, m, tolerance) + [Match(p.agentId, found.value)]
  {
    hide Compatible, CanonicalLeaf, Backs, Matches;
    var last := |peers| - 1;
    found := Compatible(NodesOf(peers[last].graph), m, CanonicalLeaf(m), tolerance);
    OneMoreMatch(peers, last, m, tolerance);
    assert peers[..last + 1] == peers;
    BacksIffFound(peers[last], m, tolerance);
  }

  lemma {:induction false} MatchesCounted(peers: seq<PeerGraph>, m: CausalNode, tolerance: real)
    ensures |Matches(peers, m, tolerance)| == Tally(peers, Backing(m, tolerance))
    ensures WeightGap(Matches(peers, m, tolerance), m.weight) == Gaps(peers, m, tolerance)
  {
    hide Compatible, CanonicalLeaf, Backs, Tally, Matches, WeightGap, Gap, Abs;
    if peers == [] {
      NoMatches(m, tolerance);
      NobodyBacks(m, tolerance);
    } else {
      var front, p := peers[..|peers| - 1], peers[|peers| - 1];
      MatchesCounted(front, m, tolerance);
      var found := LastMatch(peers, m, tolerance);
      GapIs(NodesOf(p.graph), m, tolerance);
      TallyLast(peers, Backing(m, tolerance));
      if found.Some? {
        MatchTallies(Matches(front, m, tolerance), Match(p.agentId, found.value), m.role, m.weight);
      }
    }
  }

  lemma {:induction false} BackersNamed(peers: seq<PeerGraph>, m: CausalNode, tolerance: real, id: string)
    ensures multiset(Agents(Matches(peers, m, tolerance)))[id] == Tally(peers, BackingAs(m, tolerance, id))
  {
    hide Compatible, CanonicalLeaf, Backs, Tally, Matches, Agents, Abs;
    if peers == [] {
      NoMatches(m, tolerance);
      NobodyBacks(m, tolerance);
    } else {
      var front, p := peers[..|peers| - 1], peers[|peers| - 1];
      BackersNamed(front, m, tolerance, id);
      var found := LastMatch(peers, m, tolerance);
      TallyLast(peers, BackingAs(m, tolerance, id));
      if found.Some? {
        MatchTallies(Matches(front, m, tolerance), Match(p.agentId, found.value), m.role, m.weight);
      }
    }
  }

  lemma NobodyBacks(m: CausalNode, tolerance: real)
    ensures Tally([], Backing(m, tolerance)) == 0
    ensures forall id :: Tally([], BackingAs(m, tolerance, id)) == 0
    ensures Gaps([], m, tolerance) == 0.0
  {
    hide Tally, Backs;
    TallyNone(Backing(m, tolerance));
    forall id ensures Tally([], BackingAs(m, tolerance, id)) == 0 {
      TallyNone(BackingAs(m, tolerance, id));
    }
  }

  // ---- one row ----

  /** A row counts the peers that back the node, of `among` that have a graph at all; it lists
      exactly their names; its drift is the mean gap of their weights, and its agreement the share
      of them that speak in its role. */
  ghost predicate CountsBackers(r: NodeReconciliation, m: CausalNode, peers: seq<PeerGraph>, among: nat, tolerance: real) {
    && r.nodeId == m.id
    && r.peerSupport * among as real == Tally(peers, Backing(m, tolerance)) as real
    && Sorted(r.supportingPeers, StringLE)
    && |r.supportingPeers| == Tally(peers, Backing(m, tolerance))
    && (forall id :: multiset(r.supportingPeers)[id] == Tally(peers, BackingAs(m, tolerance, id)))
    && r.weightDelta * Tally(peers, Backing(m, tolerance)) as real == Gaps(peers, m, tolerance)
    && r.roleAgreement * Tally(peers, Backing(m, tolerance)) as real == Tally(peers, Agreed(m, tolerance)) as real
  }

  lemma MeanTimes(sum: real, n: nat)
    requires n == 0 ==> sum == 0.0
    ensures Mean(sum, n) * n as real == sum
  {
  }

  lemma RowCounts(m: CausalNode, peers: seq<PeerGraph>, tolerance: real)
    requires peers != []
    ensures CountsBackers(Analysis(m, peers, tolerance), m, peers, |peers|, tolerance)
  {
    hide Matches, Agents, RoleHits, WeightGap, Mean, Tally, Backs, Gaps, StringLE, TotalPreorder, Sort;
    var ms := Matches(peers, m, tolerance);
    MatchesCounted(peers, m, tolerance);
    forall id ensures multiset(Agents(ms))[id] == Tally(peers, BackingAs(m, tolerance, id)) {
      BackersNamed(peers, m, tolerance, id);
    }
    AgreementCounted(peers, m, tolerance);
    NoGap(m);
    MeanTimes(|ms| as real, |peers|);
    MeanTimes(RoleHits(ms, m.role) as real, |ms|);
    MeanTimes(WeightGap(ms, m.weight), |ms|);
    StringOrder();
    SortSorts(Agents(ms), StringLE);
    SortPermutes(Agents(ms), StringLE);
  }

  lemma NoGap(m: CausalNode)
    ensures WeightGap([], m.weight) == 0.0
  {
  }

  /** Leaving out the peers without a graph changes no count. */
  lemma {:induction false} ValidCount(peers: seq<PeerGraph>, P: PeerGraph -> bool)
    requires forall p :: P(p) ==> NodesOf(p.graph) != []
    ensures Tally(ValidPeers(peers), P) == Tally(peers, P)
  {
    hide Tally;
    if peers == [] {
    } else {
      var front, p := peers[..|peers| - 1], peers[|peers| - 1];
      ValidCount(front, P);
      TallyLast(peers, P);
      TallyOneMore(ValidPeers(front), p, P);
    }
  }

  ghost function HasGraph(): PeerGraph -> bool {
    (p: PeerGraph) => NodesOf(p.graph) != []
  }

  lemma {:induction false} ValidAreThoseWithGraphs(peers: seq<PeerGraph>)
    ensures |ValidPeers(peers)| == Tally(peers, HasGraph())
  {
    hide Tally;
    if peers == [] {
      TallyNone(HasGraph());
    } else {
      ValidAreThoseWithGraphs(peers[..|peers| - 1]);
      TallyLast(peers, HasGraph());
    }
  }

  lemma {:induction false} ValidGaps(peers: seq<PeerGraph>, m: CausalNode, tolerance: real)
    ensures Gaps(ValidPeers(peers), m, tolerance) == Gaps(peers, m, tolerance)
  {
    hide Gap;
    if peers != [] {
      var front, p := peers[..|peers| - 1], peers[|peers| - 1];
      ValidGaps(front, m, tolerance);
      if NodesOf(p.graph) == [] {
        NoNodeNoGap(m, tolerance);
      } else {
        assert (ValidPeers(front) + [p])[..|ValidPeers(front)|] == ValidPeers(front);
      }
    }
  }

  lemma NoNodeNoGap(m: CausalNode, tolerance: real)
    ensures Gap([], m, tolerance) == 0.0
  {
  }

  lemma ValidRow(r: NodeReconciliation, m: CausalNode, peers: seq<PeerGraph>, among: nat, tolerance: real)
    requires CountsBackers(r, m, ValidPeers(peers), among, tolerance)
    ensures CountsBackers(r, m, peers, among, tolerance)
  {
    hide Tally, Gaps, StringLE, Corresponds, ValidPeers;
    ValidCount(peers, Backing(m, tolerance));
    forall id ensures Tally(ValidPeers(peers), BackingAs(m, tolerance, id)) == Tally(peers, BackingAs(m, tolerance, id)) {
      ValidCount(peers, BackingAs(m, tolerance, id));
    }
    ValidGaps(peers, m, tolerance);
    forall p: PeerGraph | Agreed(m, tolerance)(p) ensures NodesOf(p.graph) != [] {
    }
    ValidCount(peers, Agreed(m, tolerance));
  }

  // ---- the report ----

  function SupportOf(rows: seq<NodeReconciliation>): real {
    if rows == [] then 0.0 else rows[0].peerSupport + SupportOf(rows[1..])
  }

  function DriftOf(rows: seq<NodeReconciliation>): real {
    if rows == [] then 0.0 else (if rows[0].peerSupport > 0.0 then rows[0].weightDelta else 0.0) + DriftOf(rows[1..])
  }

  ghost function Supported(): NodeReconciliation -> bool {
    (r: NodeReconciliation) => r.peerSupport > 0.0
  }

  ghost function Short(floor: real): NodeReconciliation -> bool {
    (r: NodeReconciliation) => r.peerSupport < floor
  }

  ghost function ShortAs(floor: real, id: string): NodeReconciliation -> bool {
    (r: NodeReconciliation) => r.peerSupport < floor && r.nodeId == id
  }

  lemma {:induction false} RowSumsOneMore(rows: seq<NodeReconciliation>, r: NodeReconciliation)
    ensures SupportOf(rows + [r]) == SupportOf(rows) + r.peerSupport
    ensures DriftOf(rows + [r]) == DriftOf(rows) + if r.peerSupport > 0.0 then r.weightDelta else 0.0
  {
    if rows == [] {
      assert rows + [r] == [r] && [r][1..] == [];
    } else {
      assert (rows + [r])[1..] == rows[1..] + [r];
      RowSumsOneMore(rows[1..], r);
    }
  }

  lemma {:induction false} SummedMeaning(rows: seq<NodeReconciliation>, floor: real)
    ensures var s := Summed(rows, floor);
      && s.support == SupportOf(rows) && s.drift == DriftOf(rows) && s.driftCount == Tally(rows, Supported())
      && (forall id :: multiset(s.unsupported)[id] == Tally(rows, ShortAs(floor, id)))
      && |s.unsupported| == Tally(rows, Short(floor))
  {
    hide Tally, SupportOf, DriftOf;
    if rows == [] {
      NoRowSums(floor);
    } else {
      var front, last := rows[..|rows| - 1], rows[|rows| - 1];
      assert rows == front + [last];
      SummedMeaning(front, floor);
      RowSumsOneMore(front, last);
      TallyOneMore(front, last, Supported());
      TallyOneMore(front, last, Short(floor));
      forall id ensures multiset(Summed(rows, floor).unsupported)[id] == Tally(rows, ShortAs(floor, id)) {
        TallyOneMore(front, last, ShortAs(floor, id));
      }
    }
  }

  lemma NoRowSums(floor: real)
    ensures SupportOf([]) == 0.0 && DriftOf([]) == 0.0 && Tally([], Supported()) == 0 && Tally([], Short(floor)) == 0
    ensures forall id :: Tally([], ShortAs(floor, id)) == 0
  {
    TallyNone(Supported());
    TallyNone(Short(floor));
    forall id ensures Tally([], ShortAs(floor, id)) == 0 {
      TallyNone(ShortAs(floor, id));
    }
  }

  lemma {:induction false} NoDrift(rows: seq<NodeReconciliation>)
    ensures Tally(rows, Supported()) == 0 ==> DriftOf(rows) == 0.0
  {
    hide Tally;
    TallyPositive(rows, Supported());
    if rows != [] && Tally(rows, Supported()) == 0 {
      assert rows[0] in rows;
      TallyPositive(rows[1..], Supported());
      assert forall r :: r in rows[1..] ==> r in rows;
      NoDrift(rows[1..]);
    }
  }

  /** The thresholds a report is held to: the given ones, and for those left at zero 0.66 of
      support, 0.50 of coverage, 0.30 of drift, 0.20 against fabrication, 0.34 for each node and
      0.25 between weights. */
  ghost predicate HeldTo(cfg: Config, c: Config) {
    && c.faithfulSupport == (if cfg.faithfulSupport != 0.0 then cfg.faithfulSupport else 0.66)
    && c.faithfulCoverage == (if cfg.faithfulCoverage != 0.0 then cfg.faithfulCoverage else 0.50)
    && c.driftThreshold == (if cfg.driftThreshold != 0.0 then cfg.driftThreshold else 0.30)
    && c.fabricatedSupport == (if cfg.fabricatedSupport != 0.0 then cfg.fabricatedSupport else 0.20)
    && c.metaNodeMinSupport == (if cfg.metaNodeMinSupport != 0.0 then cfg.metaNodeMinSupport else 0.34)
    && c.weightTolerance == (if cfg.weightTolerance != 0.0 then cfg.weightTolerance else 0.25)
  }

  /** The rows of a report count backers among the peers that have a graph, and its scores are
      the means of the rows: support over the meta's nodes, drift over the supported ones. */
  ghost predicate ScoresRows(r: ReconciliationReport, nodes: seq<CausalNode>, peers: seq<PeerGraph>, c: Config) {
    && |r.nodeReports| == |nodes|
    && (forall i :: 0 <= i < |nodes| ==>
          CountsBackers(r.nodeReports[i], nodes[i], peers, Tally(peers, HasGraph()), c.weightTolerance))
    && r.supportScore * |nodes| as real == SupportOf(r.nodeReports)
    && r.driftScore * Tally(r.nodeReports, Supported()) as real == DriftOf(r.nodeReports)
    && (Tally(r.nodeReports, Supported()) == 0 ==> r.driftScore == 0.0)
    && (forall id :: multiset(r.unsupportedIds)[id] == Tally(r.nodeReports, ShortAs(c.fabricatedSupport, id)))
  }

  lemma RowsCount(nodes: seq<CausalNode>, peers: seq<PeerGraph>, tolerance: real, i: nat)
    requires i < |nodes| && ValidPeers(peers) != []
    ensures CountsBackers(Analyses(nodes, ValidPeers(peers), tolerance)[i], nodes[i], peers, Tally(peers, HasGraph()), tolerance)
  {
    hide CountsBackers, Analyses, Analysis, ValidPeers, Tally;
    AnalysesAre(nodes, ValidPeers(peers), tolerance, i);
    RowCounts(nodes[i], ValidPeers(peers), tolerance);
    ValidAreThoseWithGraphs(peers);
    ValidRow(Analysis(nodes[i], ValidPeers(peers), tolerance), nodes[i], peers, |ValidPeers(peers)|, tolerance);
  }

  lemma ReportScores(meta: Option<CausalGraph>, peers: seq<PeerGraph>, cfg: Config)
    requires NodesOf(meta) != [] && Tally(peers, HasGraph()) > 0
    ensures ScoresRows(Reconciliation(meta, peers, cfg), NodesOf(meta), peers, WithDefaults(cfg))
  {
    hide Summed, ValidPeers, Analyses, CoverageScore, UncoveredIds, HasUnsupported, Mean, WithDefaults, CountsBackers, Tally, SupportOf, DriftOf;
    ValidAreThoseWithGraphs(peers);
    var c, nodes, valid := WithDefaults(cfg), NodesOf(meta), ValidPeers(peers);
    var rows := Analyses(nodes, valid, c.weightTolerance);
    SummedMeaning(rows, c.fabricatedSupport);
    MeanTimes(SupportOf(rows), |nodes|);
    NoDrift(rows);
    MeanTimes(DriftOf(rows), Tally(rows, Supported()));
    MeanOfNothing(Tally(rows, Supported()));
    forall i | 0 <= i < |nodes|
      ensures CountsBackers(rows[i], nodes[i], peers, Tally(peers, HasGraph()), c.weightTolerance)
    {
      RowsCount(nodes, peers, c.weightTolerance, i);
    }
  }

  /** Which status a report gets, by its own scores and rows: fabricated if a row without enough
      support has no agreement in role; faithful if it is not, and support, coverage, drift and
      every row pass; drifted otherwise. */
  lemma StatusMeaning(meta: Option<CausalGraph>, peers: seq<PeerGraph>, cfg: Config)
    requires NodesOf(meta) != [] && Tally(peers, HasGraph()) > 0
    ensures var r, c := Reconciliation(meta, peers, cfg), WithDefaults(cfg);
      && HeldTo(cfg, c)
      && (r.status == Fabricated
          <==> exists row :: row in r.nodeReports && row.peerSupport < c.fabricatedSupport && row.roleAgreement == 0.0)
      && (r.status == Faithful
          <==> r.status != Fabricated
               && r.supportScore >= c.faithfulSupport && r.coverageScore >= c.faithfulCoverage
               && r.driftScore <= c.driftThreshold && forall row :: row in r.nodeReports ==> row.peerSupport >= c.metaNodeMinSupport)
  {
    hide Summed, ValidPeers, Analyses, CoverageScore, UncoveredIds, Mean, WithDefaults, Tally;
    ValidAreThoseWithGraphs(peers);
    DefaultsAre(cfg);
    FabricatedFlag(Analyses(NodesOf(meta), ValidPeers(peers), WithDefaults(cfg).weightTolerance), WithDefaults(cfg).fabricatedSupport);
  }

  lemma DefaultsAre(cfg: Config)
    ensures HeldTo(cfg, WithDefaults(cfg))
  {
  }

  /** Without nodes to reconcile, or a peer with a graph, everything is refused as fabricated. */
  lemma RefusalMeaning(meta: Option<CausalGraph>, peers: seq<PeerGraph>, cfg: Config)
    requires NodesOf(meta) == [] || Tally(peers, HasGraph()) == 0
    ensures Reconciliation(meta, peers, cfg) == ReconciliationReport(Fabricated, 0.0, 0.0, 0.0, [], [], [])
  {
    hide Tally;
    ValidAreThoseWithGraphs(peers);
  }

  // ---- coverage ----

  /** Some peer has a node of this mechanism. */
  ghost predicate Occurs(peers: seq<PeerGraph>, leaf: Digest) {
    exists p, n :: p in peers && n in NodesOf(p.graph) && CanonicalLeaf(n) == leaf
  }

  lemma {:induction false} NodesOfPeers(peers: seq<PeerGraph>, n: CausalNode)
    ensures n in AllNodes(ValidPeers(peers)) <==> exists p :: p in peers && n in NodesOf(p.graph)
  {
    if peers != [] {
      var front, p := peers[..|peers| - 1], peers[|peers| - 1];
      assert peers == front + [p];
      NodesOfPeers(front, n);
      if NodesOf(p.graph) != [] {
        assert (ValidPeers(front) + [p])[..|ValidPeers(front)|] == ValidPeers(front);
      }
    }
  }

  lemma LeavesOccur(peers: seq<PeerGraph>, leaf: Digest)
    ensures leaf in LeavesIn(AllNodes(ValidPeers(peers))) <==> Occurs(peers, leaf)
  {
    hide CanonicalLeaf, AllNodes, ValidPeers;
    var nodes := AllNodes(ValidPeers(peers));
    if leaf in LeavesIn(nodes) {
      var n :| n in nodes && CanonicalLeaf(n) == leaf;
      NodesOfPeers(peers, n);
    }
    if Occurs(peers, leaf) {
      var p, n :| p in peers && n in NodesOf(p.graph) && CanonicalLeaf(n) == leaf;
      NodesOfPeers(peers, n);
    }
  }

  /** The mechanisms among the peers' nodes that no node of the meta corresponds to, told by the
      first node that has each. */
  ghost predicate Missed(meta: seq<CausalNode>, nodes: seq<CausalNode>, leaf: Digest, tolerance: real, id: string) {
    exists k :: 0 <= k < |nodes| && CanonicalLeaf(nodes[k]) == leaf && nodes[k].id == id
      && (forall j :: 0 <= j < k ==> CanonicalLeaf(nodes[j]) != leaf)
      && (forall n :: n in meta ==> !Corresponds(n, nodes[k], tolerance))
  }

  ghost function MissedLeaves(meta: seq<CausalNode>, nodes: seq<CausalNode>, tolerance: real): set<Digest> {
    set leaf | leaf in LeavesIn(nodes) && exists id :: Missed(meta, nodes, leaf, tolerance, id)
  }

  ghost function MissedAs(meta: seq<CausalNode>, nodes: seq<CausalNode>, tolerance: real, id: string): set<Digest> {
    set leaf | leaf in LeavesIn(nodes) && Missed(meta, nodes, leaf, tolerance, id)
  }

  lemma MissedIff(meta: seq<CausalNode>, nodes: seq<CausalNode>, leaf: Digest, tolerance: real, id: string)
    requires leaf in LeavesIn(nodes)
    ensures Missed(meta, nodes, leaf, tolerance, id) <==> !Covers(meta, nodes, leaf, tolerance) && IdForLeaf(nodes, leaf) == id
  {
    hide CanonicalLeaf, Compatible, Corresponds, Counterpart, NodeForLeaf;
    FoundInNodes(nodes, leaf);
    var k := FirstLeafAt(nodes, leaf);
    CompatibleMeaning(meta, nodes[k], tolerance);
    forall n ensures Corresponds(n, nodes[k], tolerance) <==> Counterpart(n, nodes[k], tolerance) {
      CorrespondsIsCounterpart(n, nodes[k], tolerance);
    }
  }

  ghost function UncoveredAs(meta: seq<CausalNode>, nodes: seq<CausalNode>, tolerance: real, id: string): set<Digest> {
    set leaf | leaf in LeavesIn(nodes) - CoveredLeaves(meta, nodes, tolerance) && Namer(nodes)(leaf) == id
  }

  lemma MissedAreUncovered(meta: seq<CausalNode>, nodes: seq<CausalNode>, tolerance: real)
    ensures MissedLeaves(meta, nodes, tolerance) == LeavesIn(nodes) - CoveredLeaves(meta, nodes, tolerance)
    ensures forall id :: MissedAs(meta, nodes, tolerance, id) == UncoveredAs(meta, nodes, tolerance, id)
  {
    hide Missed, LeavesIn, Covers, IdForLeaf;
    forall leaf, id | leaf in LeavesIn(nodes)
      ensures Missed(meta, nodes, leaf, tolerance, id) <==> !Covers(meta, nodes, leaf, tolerance) && IdForLeaf(nodes, leaf) == id
    {
      MissedIff(meta, nodes, leaf, tolerance, id);
    }
    forall leaf | leaf in LeavesIn(nodes)
      ensures (exists id :: Missed(meta, nodes, leaf, tolerance, id)) <==> !Covers(meta, nodes, leaf, tolerance)
    {
      assert !Covers(meta, nodes, leaf, tolerance) ==> Missed(meta, nodes, leaf, tolerance, IdForLeaf(nodes, leaf));
    }
  }

  ghost function NamedAs(ds: seq<Digest>, f: Digest -> string, id: string): set<Digest> {
    set d | d in ds && f(d) == id
  }

  lemma NamedOneMore(ds: seq<Digest>, d: Digest, f: Digest -> string, id: string)
    requires d !in ds
    ensures |NamedAs(ds + [d], f, id)| == |NamedAs(ds, f, id)| + if f(d) == id then 1 else 0
  {
    if f(d) == id {
      assert NamedAs(ds + [d], f, id) == NamedAs(ds, f, id) + {d};
    } else {
      assert NamedAs(ds + [d], f, id) == NamedAs(ds, f, id);
    }
  }

  lemma MapOneMore(ds: seq<Digest>, d: Digest, f: Digest -> string, id: string)
    ensures multiset(Map(f, ds + [d]))[id] == multiset(Map(f, ds))[id] + if f(d) == id then 1 else 0
  {
    assert Map(f, ds + [d]) == Map(f, ds) + [f(d)];
  }

  lemma {:induction false} NamesCountedOnce(ds: seq<Digest>, f: Digest -> string, id: string)
    requires Distinct(ds)
    ensures multiset(Map(f, ds))[id] == |NamedAs(ds, f, id)|
  {
    if ds != [] {
      var front, last := ds[..|ds| - 1], ds[|ds| - 1];
      assert ds == front + [last];
      assert last !in front && Distinct(front);
      hide NamedAs, Map;
      NamesCountedOnce(front, f, id);
      NamedOneMore(front, last, f, id);
      MapOneMore(front, last, f, id);
    }
  }

  lemma SetSplit(a: set<Digest>, b: set<Digest>)
    requires b <= a
    ensures |a - b| + |b| == |a|
  {
    assert a == (a - b) + b;
  }

  lemma MeanOfNothing(n: nat)
    ensures Mean(0.0, n) == 0.0
  {
  }

  lemma CoverageCounts(meta: seq<CausalNode>, nodes: seq<CausalNode>, tolerance: real)
    ensures CoverageScore(meta, nodes, tolerance) * |LeavesIn(nodes)| as real
         == |LeavesIn(nodes)| as real - |MissedLeaves(meta, nodes, tolerance)| as real
  {
    hide LeavesIn, CoveredLeaves, MissedLeaves, Mean, Missed;
    var l, c := LeavesIn(nodes), CoveredLeaves(meta, nodes, tolerance);
    MissedAreUncovered(meta, nodes, tolerance);
    CoveredAreLeaves(meta, nodes, tolerance);
    SetSplit(l, c);
    MeanTimes(|c| as real, |l|);
  }

  lemma CoveredAreLeaves(meta: seq<CausalNode>, nodes: seq<CausalNode>, tolerance: real)
    ensures CoveredLeaves(meta, nodes, tolerance) <= LeavesIn(nodes)
  {
    hide Covers, LeavesIn;
  }

  lemma UncoveredCounts(meta: seq<CausalNode>, nodes: seq<CausalNode>, tolerance: real)
    ensures var u := UncoveredIds(meta, nodes, tolerance);
      && Sorted(u, StringLE) && |u| == |MissedLeaves(meta, nodes, tolerance)|
      && forall id :: multiset(u)[id] == |MissedAs(meta, nodes, tolerance, id)|
  {
    hide LeavesIn, CoveredLeaves, MissedLeaves, MissedAs, Missed, StringLE, DigestLE, Namer, Sort, TotalPreorder, Antisymmetric;
    var rest := LeavesIn(nodes) - CoveredLeaves(meta, nodes, tolerance);
    MissedAreUncovered(meta, nodes, tolerance);
    DigestOrder();
    StringOrder();
    var ds, f := LeafList(rest), Namer(nodes);
    AscendingSorted(rest, DigestLE);
    SortSorts(Map(f, ds), StringLE);
    SortPermutes(Map(f, ds), StringLE);
    forall id ensures multiset(Map(f, ds))[id] == |MissedAs(meta, nodes, tolerance, id)| {
      NamesCountedOnce(ds, f, id);
      assert NamedAs(ds, f, id) == UncoveredAs(meta, nodes, tolerance, id);
    }
  }

  /** Coverage: the fraction of the peers' distinct mechanisms that some node of the meta
      corresponds to, and the sorted names of the others, one for each. */
  lemma CoverageMeaning(meta: Option<CausalGraph>, peers: seq<PeerGraph>, cfg: Config)
    requires NodesOf(meta) != [] && Tally(peers, HasGraph()) > 0
    ensures var r, tolerance := Reconciliation(meta, peers, cfg), WithDefaults(cfg).weightTolerance;
      var nodes := AllNodes(ValidPeers(peers));
      && (forall leaf :: leaf in LeavesIn(nodes) <==> Occurs(peers, leaf))
      && r.coverageScore * |LeavesIn(nodes)| as real
         == |LeavesIn(nodes)| as real - |MissedLeaves(NodesOf(meta), nodes, tolerance)| as real
      && Sorted(r.uncoveredIds, StringLE) && |r.uncoveredIds| == |MissedLeaves(NodesOf(meta), nodes, tolerance)|
      && (forall id :: multiset(r.uncoveredIds)[id] == |MissedAs(NodesOf(meta), nodes, tolerance, id)|)
  {
    hide Summed, ValidPeers, Analyses, CoverageScore, UncoveredIds, HasUnsupported, Mean, WithDefaults, LeavesIn, MissedLeaves, MissedAs, Missed, Occurs, AllNodes, StringLE, StatusOf, Tally;
    ValidAreThoseWithGraphs(peers);
    var nodes, tolerance := AllNodes(ValidPeers(peers)), WithDefaults(cfg).weightTolerance;
    forall leaf ensures leaf in LeavesIn(nodes) <==> Occurs(peers, leaf) {
      LeavesOccur(peers, leaf);
    }
    CoverageCounts(NodesOf(meta), nodes, tolerance);
    UncoveredCounts(NodesOf(meta), nodes, tolerance);
  }
}
