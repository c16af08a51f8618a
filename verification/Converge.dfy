/** The convergence gate over a cohort's attestations (speculative_converge.go). */
module Converge {
  import opened Sorting
  import opened SortedSets
  import opened Text
  import opened Merkle

  datatype Peer = Peer(agentId: string, attestation: Attestation)

  datatype ConvergenceStatus = Converged | Partial | Divergent

  datatype Severity = Extra | Missing

  datatype Locus = Locus(leaf: Digest, severity: Severity, inclusion: seq<string>, exclusion: seq<string>)

  datatype ConvergenceReport = ConvergenceReport(
    status: ConvergenceStatus,
    consensusRoot: Option<Digest>,
    threshold: real,
    quorum: real,
    agentCount: nat,
    histogram: map<Digest, nat>,
    bucketAgents: map<Digest, seq<string>>,
    loci: seq<Locus>)

  const DEFAULT_THRESHOLD := 0.66

  // ---- who has which root ----

  function Bucket(peers: seq<Peer>, root: Digest): (r: seq<string>)
    ensures |r| <= |peers|
  {
    if peers == [] then []
    else
      var rest, p := Bucket(peers[..|peers| - 1], root), peers[|peers| - 1];
      if p.attestation.root == root then rest + [p.agentId] else rest
  }

  function Roots(peers: seq<Peer>): set<Digest> {
    set p | p in peers :: p.attestation.root
  }

  function Histogram(peers: seq<Peer>): map<Digest, nat> {
    map d | d in Roots(peers) :: |Bucket(peers, d)|
  }

  function Buckets(peers: seq<Peer>): map<Digest, seq<string>> {
    map d | d in Roots(peers) :: Bucket(peers, d)
  }

  function SortedBuckets(peers: seq<Peer>): map<Digest, seq<string>> {
    map d | d in Roots(peers) :: Sort(Bucket(peers, d), StringLE)
  }

  lemma OnePeerMore(peers: seq<Peer>, i: nat, d: Digest)
    requires i < |peers|
    ensures Bucket(peers[..i + 1], d)
         == if peers[i].attestation.root == d then Bucket(peers[..i], d) + [peers[i].agentId] else Bucket(peers[..i], d)
    ensures Roots(peers[..i + 1]) == Roots(peers[..i]) + {peers[i].attestation.root}
  {
    assert peers[..i + 1][..i] == peers[..i];
    assert peers[..i + 1] == peers[..i] + [peers[i]];
  }

  lemma {:induction false} BucketOutside(peers: seq<Peer>, d: Digest)
    ensures d in Roots(peers) <==> Bucket(peers, d) != []
  {
    if peers != [] {
      BucketOutside(peers[..|peers| - 1], d);
      OnePeerMore(peers, |peers| - 1, d);
      assert peers[..|peers|] == peers;
    }
  }

  method CountRoots(peers: seq<Peer>) returns (histogram: map<Digest, nat>, buckets: map<Digest, seq<string>>)
    ensures histogram == Histogram(peers) && buckets == Buckets(peers)
  {
    hide Bucket, Roots;
    histogram, buckets := map[], map[];
    NoRoots();
    for i := 0 to |peers|
      invariant histogram == Histogram(peers[..i]) && buckets == Buckets(peers[..i])
    {
      var p := peers[i];
      var root := p.attestation.root;
      forall d ensures Bucket(peers[..i + 1], d) == if root == d then Bucket(peers[..i], d) + [p.agentId] else Bucket(peers[..i], d) {
        OnePeerMore(peers, i, d);
      }
      OnePeerMore(peers, i, root);
      BucketOutside(peers[..i], root);
      histogram := histogram[root := (if root in histogram then histogram[root] else 0) + 1];
      buckets := buckets[root := (if root in buckets then buckets[root] else []) + [p.agentId]];
    }
    assert peers[..|peers|] == peers;
  }

  lemma NoRoots()
    ensures Roots([]) == {} && forall d :: Bucket([], d) == []
  {
  }

  /** Sorts every bucket in place, in whatever order the map yields its keys. */
  method SortBuckets(peers: seq<Peer>, buckets: map<Digest, seq<string>>) returns (sorted: map<Digest, seq<string>>)
    requires buckets == Buckets(peers)
    ensures sorted == SortedBuckets(peers)
  {
    hide Bucket, Roots, Sort, StringLE;
    sorted := buckets;
    var left := buckets.Keys;
    while left != {}
      invariant left <= Roots(peers) == sorted.Keys
      invariant forall d :: d in sorted ==> sorted[d] == if d in left then Bucket(peers, d) else Sort(Bucket(peers, d), StringLE)
      decreases |left|
    {
      var k :| k in left;
      sorted := sorted[k := Sort(sorted[k], StringLE)];
      left := left - {k};
    }
  }

  // ---- the most common root ----

  datatype Plurality = Plurality(best: Option<Digest>, count: nat, tied: bool)

  function Walk(keys: seq<Digest>, hist: map<Digest, nat>): Plurality
    requires forall k :: k in keys ==> k in hist
  {
    if keys == [] then Plurality(None, 0, false)
    else
      var p, k := Walk(keys[..|keys| - 1], hist), keys[|keys| - 1];
      if hist[k] > p.count then Plurality(Some(k), hist[k], false)
      else if hist[k] == p.count && p.best != Some(k) then p.(tied := true)
      else p
  }

  lemma WalkStep(keys: seq<Digest>, hist: map<Digest, nat>, i: nat)
    requires i <= |keys| && forall k :: k in keys ==> k in hist
    ensures forall j, k :: 0 <= j <= |keys| && k in keys[..j] ==> k in hist
    ensures Walk([], hist) == Plurality(None, 0, false)
    ensures i < |keys| ==> var p, k := Walk(keys[..i], hist), keys[i];
      Walk(keys[..i + 1], hist)
      == if hist[k] > p.count then Plurality(Some(k), hist[k], false)
         else if hist[k] == p.count && p.best != Some(k) then p.(tied := true)
         else p
  {
    if i < |keys| {
      assert keys[..i + 1][..i] == keys[..i];
    }
  }

  function PluralityOf(hist: map<Digest, nat>): Plurality {
    DigestOrder();
    Walk(Ascending(hist.Keys, DigestLE), hist)
  }

  method PluralityRoot(hist: map<Digest, nat>) returns (p: Plurality)
    ensures p == PluralityOf(hist)
  {
    hide DigestLE, TotalPreorder, Antisymmetric, Walk;
    DigestOrder();
    var keys := SetToSortedSlice(hist.Keys, DigestLE);
    WalkStep(keys, hist, 0);
    var best: Option<Digest>, bestCount: nat, tied := None, 0, false;
    for i := 0 to |keys|
      invariant Plurality(best, bestCount, tied) == Walk(keys[..i], hist)
    {
      WalkStep(keys, hist, i);
      var k := keys[i];
      var c := hist[k];
      if c > bestCount {
        best, bestCount, tied := Some(k), c, false;
      } else if c == bestCount && best != Some(k) {
        tied := true;
      }
    }
    assert keys[..|keys|] == keys;
    p := Plurality(best, bestCount, tied);
  }

  /** Read off the histogram, without walking it. */
  ghost predicate IsPlurality(p: Plurality, keys: seq<Digest>, hist: map<Digest, nat>)
    requires forall k :: k in keys ==> k in hist
  {
    && p.best.Some? && p.best.value in keys && p.count == hist[p.best.value]
    && (forall k :: k in keys ==> hist[k] <= p.count)
    && (p.tied <==> exists k :: k in keys && k != p.best.value && hist[k] == p.count)
  }

  lemma {:induction false} WalkFindsPlurality(keys: seq<Digest>, hist: map<Digest, nat>)
    requires keys != [] && Distinct(keys) && forall k :: k in keys ==> k in hist && hist[k] > 0
    ensures IsPlurality(Walk(keys, hist), keys, hist)
  {
    var front, k := keys[..|keys| - 1], keys[|keys| - 1];
    assert keys == front + [k];
    if front != [] {
      WalkFindsPlurality(front, hist);
      assert k !in front;
      var p, q := Walk(front, hist), Walk(keys, hist);
      if hist[k] > p.count {
        assert forall x :: x in front ==> hist[x] != hist[k];
      } else if p.tied {
        var x :| x in front && x != p.best.value && hist[x] == p.count;
        assert x in keys;
      }
    }
  }

  lemma PluralityMeaning(hist: map<Digest, nat>)
    requires hist.Keys != {} && forall k :: k in hist ==> hist[k] > 0
    ensures var p := PluralityOf(hist);
      && p.best.Some? && p.best.value in hist && p.count == hist[p.best.value]
      && (forall k :: k in hist ==> hist[k] <= p.count)
      && (p.tied <==> exists k :: k in hist && k != p.best.value && hist[k] == p.count)
  {
    hide DigestLE, Walk, TotalPreorder, Antisymmetric;
    DigestOrder();
    var keys := Ascending(hist.Keys, DigestLE);
    AscendingSorted(hist.Keys, DigestLE);
    WalkFindsPlurality(keys, hist);
    assert forall k :: k in keys <==> k in hist;
  }

  // ---- where the dissenters differ ----

  /** The leaves of the first peer in the bucket stand for all of them. */
  function ConsensusLeaves(peers: seq<Peer>, root: Digest): set<Digest> {
    if peers == [] then {}
    else if peers[0].attestation.root == root then Members(peers[0].attestation.leafHashes)
    else ConsensusLeaves(peers[1..], root)
  }

  predicate Excludes(p: Peer, root: Digest, consensus: set<Digest>, leaf: Digest) {
    p.attestation.root != root && leaf in consensus && leaf !in p.attestation.leafHashes
  }

  predicate Includes(p: Peer, root: Digest, consensus: set<Digest>, leaf: Digest) {
    p.attestation.root != root && leaf !in consensus && leaf in p.attestation.leafHashes
  }

  function Excluders(peers: seq<Peer>, root: Digest, consensus: set<Digest>, leaf: Digest): set<string> {
    set p | p in peers && Excludes(p, root, consensus, leaf) :: p.agentId
  }

  function Includers(peers: seq<Peer>, root: Digest, consensus: set<Digest>, leaf: Digest): set<string> {
    set p | p in peers && Includes(p, root, consensus, leaf) :: p.agentId
  }

  datatype LeafState = LeafState(inclusion: set<string>, exclusion: set<string>)

  const UNSEEN := LeafState({}, {})

  function StateOf(state: map<Digest, LeafState>, leaf: Digest): LeafState {
    if leaf in state then state[leaf] else UNSEEN
  }

  function LeafVerdict(peers: seq<Peer>, root: Digest, consensus: set<Digest>, leaf: Digest): LeafState {
    LeafState(Includers(peers, root, consensus, leaf), Excluders(peers, root, consensus, leaf))
  }

  /** The leaves some dissenter lacks or adds. */
  function Disputed(peers: seq<Peer>, root: Digest, consensus: set<Digest>): set<Digest> {
    (set p, leaf | p in peers && leaf in consensus && Excludes(p, root, consensus, leaf) :: leaf)
    + (set p, leaf | p in peers && leaf in p.attestation.leafHashes && Includes(p, root, consensus, leaf) :: leaf)
  }

  function DisputedList(peers: seq<Peer>, root: Digest, consensus: set<Digest>): seq<Digest> {
    DigestOrder();
    Ascending(Disputed(peers, root, consensus), DigestLE)
  }

  function LocusOf(peers: seq<Peer>, root: Digest, consensus: set<Digest>, leaf: Digest): Locus {
    StringOrder();
    Locus(leaf, if leaf in consensus then Missing else Extra,
          Ascending(Includers(peers, root, consensus, leaf), StringLE),
          Ascending(Excluders(peers, root, consensus, leaf), StringLE))
  }

  function LociFor(peers: seq<Peer>, root: Digest, consensus: set<Digest>, leaves: seq<Digest>): (r: seq<Locus>)
    ensures |r| == |leaves|
    ensures forall i :: 0 <= i < |r| ==> r[i] == LocusOf(peers, root, consensus, leaves[i])
  {
    seq(|leaves|, i requires 0 <= i < |leaves| => LocusOf(peers, root, consensus, leaves[i]))
  }

  function Loci(peers: seq<Peer>, root: Digest): seq<Locus> {
    var consensus := ConsensusLeaves(peers, root);
    if consensus == {} then [] else LociFor(peers, root, consensus, DisputedList(peers, root, consensus))
  }

  /** What the per-leaf state must say after some of the peers. */
  ghost predicate Records(state: map<Digest, LeafState>, peers: seq<Peer>, root: Digest, consensus: set<Digest>) {
    && (forall leaf :: StateOf(state, leaf) == LeafVerdict(peers, root, consensus, leaf))
    && AllSeen(state)
  }

  ghost predicate AllSeen(state: map<Digest, LeafState>) {
    forall leaf :: leaf in state ==> state[leaf] != UNSEEN
  }

  function Excluding(s: LeafState, agent: string): (r: LeafState)
    ensures r != UNSEEN
  {
    assert agent in s.exclusion + {agent};
    s.(exclusion := s.exclusion + {agent})
  }

  function Including(s: LeafState, agent: string): (r: LeafState)
    ensures r != UNSEEN
  {
    assert agent in s.inclusion + {agent};
    s.(inclusion := s.inclusion + {agent})
  }

  lemma StateUpdated(state: map<Digest, LeafState>, leaf: Digest, s: LeafState)
    requires AllSeen(state) && s != UNSEEN
    ensures AllSeen(state[leaf := s])
    ensures forall x :: (StateOf(state[leaf := s], x) == if x == leaf then s else StateOf(state, x))
  {
    var after := state[leaf := s];
    forall x | x in after ensures after[x] != UNSEEN {
      assert x == leaf || x in state;
    }
    forall x ensures StateOf(after, x) == if x == leaf then s else StateOf(state, x) {
      assert x in after <==> x == leaf || x in state;
    }
  }

  method MarkExcluded(state: map<Digest, LeafState>, consensus: set<Digest>, peerSet: set<Digest>, agent: string)
    returns (marked: map<Digest, LeafState>)
    requires AllSeen(state)
    ensures AllSeen(marked)
    ensures forall x :: (
      StateOf(marked, x) == if x in consensus && x !in peerSet then Excluding(StateOf(state, x), agent) else StateOf(state, x))
  {
    hide AllSeen, StateOf, Excluding;
    marked := state;
    var left := consensus;
    while left != {}
      invariant left <= consensus && AllSeen(marked)
      invariant forall x :: (
        StateOf(marked, x)
        == if x in consensus && x !in left && x !in peerSet then Excluding(StateOf(state, x), agent) else StateOf(state, x))
      decreases |left|
    {
      var leaf :| leaf in left;
      if leaf !in peerSet {
        StateUpdated(marked, leaf, Excluding(StateOf(marked, leaf), agent));
        marked := marked[leaf := Excluding(StateOf(marked, leaf), agent)];
      }
      left := left - {leaf};
    }
  }

  method MarkIncluded(state: map<Digest, LeafState>, consensus: set<Digest>, peerSet: set<Digest>, agent: string)
    returns (marked: map<Digest, LeafState>)
    requires AllSeen(state)
    ensures AllSeen(marked)
    ensures forall x :: (
      StateOf(marked, x) == if x in peerSet && x !in consensus then Including(StateOf(state, x), agent) else StateOf(state, x))
  {
    hide AllSeen, StateOf, Including;
    marked := state;
    var left := peerSet;
    while left != {}
      invariant left <= peerSet && AllSeen(marked)
      invariant forall x :: (
        StateOf(marked, x)
        == if x in peerSet && x !in left && x !in consensus then Including(StateOf(state, x), agent) else StateOf(state, x))
      decreases |left|
    {
      var leaf :| leaf in left;
      if leaf !in consensus {
        StateUpdated(marked, leaf, Including(StateOf(marked, leaf), agent));
        marked := marked[leaf := Including(StateOf(marked, leaf), agent)];
      }
      left := left - {leaf};
    }
  }

  lemma OneMoreVerdict(peers: seq<Peer>, i: nat, root: Digest, consensus: set<Digest>, leaf: Digest)
    requires i < |peers|
    ensures var before, p := LeafVerdict(peers[..i], root, consensus, leaf), peers[i];
      LeafVerdict(peers[..i + 1], root, consensus, leaf) == LeafState(
        before.inclusion + (if Includes(p, root, consensus, leaf) then {p.agentId} else {}),
        before.exclusion + (if Excludes(p, root, consensus, leaf) then {p.agentId} else {}))
  {
    assert peers[..i + 1] == peers[..i] + [peers[i]];
  }

  lemma RecordsOneMore(before: map<Digest, LeafState>, after: map<Digest, LeafState>, peers: seq<Peer>, i: nat, root: Digest, consensus: set<Digest>)
    requires i < |peers| && Records(before, peers[..i], root, consensus)
    requires AllSeen(after)
    requires forall leaf :: StateOf(after, leaf) == LeafState(
               StateOf(before, leaf).inclusion + (if Includes(peers[i], root, consensus, leaf) then {peers[i].agentId} else {}),
               StateOf(before, leaf).exclusion + (if Excludes(peers[i], root, consensus, leaf) then {peers[i].agentId} else {}))
    ensures Records(after, peers[..i + 1], root, consensus)
  {
    hide LeafVerdict, Includes, Excludes, StateOf;
    forall leaf ensures StateOf(after, leaf) == LeafVerdict(peers[..i + 1], root, consensus, leaf) {
      OneMoreVerdict(peers, i, root, consensus, leaf);
    }
  }

  method RecordPeer(state: map<Digest, LeafState>, peers: seq<Peer>, i: nat, root: Digest, consensus: set<Digest>)
    returns (next: map<Digest, LeafState>)
    requires i < |peers| && Records(state, peers[..i], root, consensus)
    ensures Records(next, peers[..i + 1], root, consensus)
  {
    hide LeafVerdict, StateOf;
    var p := peers[i];
    next := state;
    if p.attestation.root != root {
      var peerSet := Members(p.attestation.leafHashes);
      next := MarkExcluded(next, consensus, peerSet, p.agentId);
      next := MarkIncluded(next, consensus, peerSet, p.agentId);
    }
    RecordsOneMore(state, next, peers, i, root, consensus);
  }

  lemma RecordedKeys(state: map<Digest, LeafState>, peers: seq<Peer>, root: Digest, consensus: set<Digest>)
    requires Records(state, peers, root, consensus)
    ensures state.Keys == Disputed(peers, root, consensus)
  {
    hide Excludes, Includes;
    forall leaf ensures leaf in state.Keys <==> leaf in Disputed(peers, root, consensus) {
      assert StateOf(state, leaf) == LeafVerdict(peers, root, consensus, leaf);
      DisputedIff(peers, root, consensus, leaf);
      assert leaf in state <==> StateOf(state, leaf) != UNSEEN;
    }
  }

  lemma DisputedIff(peers: seq<Peer>, root: Digest, consensus: set<Digest>, leaf: Digest)
    ensures leaf in Disputed(peers, root, consensus) <==> LeafVerdict(peers, root, consensus, leaf) != UNSEEN
  {
    var v := LeafVerdict(peers, root, consensus, leaf);
    if v.inclusion != {} {
      var a :| a in v.inclusion;
      var p :| p in peers && Includes(p, root, consensus, leaf) && p.agentId == a;
      assert leaf in p.attestation.leafHashes;
    }
    if v.exclusion != {} {
      var a :| a in v.exclusion;
      var p :| p in peers && Excludes(p, root, consensus, leaf) && p.agentId == a;
      assert leaf in consensus;
    }
    if leaf in Disputed(peers, root, consensus) {
      if p :| p in peers && Excludes(p, root, consensus, leaf) {
        assert p.agentId in v.exclusion;
      } else {
        var q :| q in peers && Includes(q, root, consensus, leaf);
        assert q.agentId in v.inclusion;
      }
    }
  }

  method ConsensusSet(peers: seq<Peer>, root: Digest) returns (consensus: set<Digest>)
    ensures consensus == ConsensusLeaves(peers, root)
  {
    consensus := {};
    var i := 0;
    while i < |peers|
      invariant 0 <= i <= |peers| && ConsensusLeaves(peers, root) == ConsensusLeaves(peers[i..], root)
      decreases |peers| - i
    {
      if peers[i].attestation.root == root {
        consensus := Members(peers[i].attestation.leafHashes);
        return;
      }
      assert peers[i..][1..] == peers[i + 1..];
      i := i + 1;
    }
  }

  method ComputeDivergenceLoci(peers: seq<Peer>, root: Digest) returns (out: seq<Locus>)
    ensures out == Loci(peers, root)
  {
    hide Records, LociFor, DisputedList, ConsensusLeaves;
    var consensus := ConsensusSet(peers, root);
    if consensus == {} {
      return [];
    }
    var state: map<Digest, LeafState> := map[];
    NothingRecorded(root, consensus);
    for i := 0 to |peers|
      invariant Records(state, peers[..i], root, consensus)
    {
      state := RecordPeer(state, peers, i, root, consensus);
    }
    assert peers[..|peers|] == peers;
    out := ListLoci(state, peers, root, consensus);
  }

  method SortedKeys(state: map<Digest, LeafState>, peers: seq<Peer>, root: Digest, consensus: set<Digest>) returns (leaves: seq<Digest>)
    requires Records(state, peers, root, consensus)
    ensures leaves == DisputedList(peers, root, consensus)
    ensures forall l :: l in leaves ==> l in state
  {
    hide Records, Disputed, DigestLE, TotalPreorder, Antisymmetric;
    RecordedKeys(state, peers, root, consensus);
    DigestOrder();
    leaves := SetToSortedSlice(state.Keys, DigestLE);
  }

  method ListLoci(state: map<Digest, LeafState>, peers: seq<Peer>, root: Digest, consensus: set<Digest>) returns (out: seq<Locus>)
    requires Records(state, peers, root, consensus)
    ensures out == LociFor(peers, root, consensus, DisputedList(peers, root, consensus))
  {
    hide Records, DisputedList, LocusOf, LociFor;
    var leaves := SortedKeys(state, peers, root, consensus);
    out := [];
    for i := 0 to |leaves|
      invariant |out| == i && forall k :: 0 <= k < i ==> out[k] == LocusOf(peers, root, consensus, leaves[k])
    {
      assert leaves[i] in leaves;
      var locus := BuildLocus(state, peers, root, consensus, leaves[i]);
      out := out + [locus];
    }
    assert out == LociFor(peers, root, consensus, leaves);
  }

  method BuildLocus(state: map<Digest, LeafState>, peers: seq<Peer>, root: Digest, consensus: set<Digest>, leaf: Digest) returns (locus: Locus)
    requires Records(state, peers, root, consensus) && leaf in state
    ensures locus == LocusOf(peers, root, consensus, leaf)
  {
    hide Records, Includers, Excluders, StringLE, TotalPreorder, Antisymmetric;
    var s := state[leaf];
    RecordedState(state, peers, root, consensus, leaf);
    StringOrder();
    var severity := Extra;
    if leaf in consensus {
      severity := Missing;
    }
    var inclusion := SetToSortedSlice(s.inclusion, StringLE);
    var exclusion := SetToSortedSlice(s.exclusion, StringLE);
    locus := Locus(leaf, severity, inclusion, exclusion);
  }

  lemma NothingRecorded(root: Digest, consensus: set<Digest>)
    ensures Records(map[], [], root, consensus)
  {
  }

  lemma RecordedState(state: map<Digest, LeafState>, peers: seq<Peer>, root: Digest, consensus: set<Digest>, leaf: Digest)
    requires Records(state, peers, root, consensus) && leaf in state
    ensures state[leaf].inclusion == Includers(peers, root, consensus, leaf)
    ensures state[leaf].exclusion == Excluders(peers, root, consensus, leaf)
  {
    assert StateOf(state, leaf) == LeafVerdict(peers, root, consensus, leaf);
  }

  // ---- the gate ----

  function EffectiveThreshold(threshold: real): real {
    if threshold <= 0.0 || threshold > 1.0 then DEFAULT_THRESHOLD else threshold
  }

  function Quorum(peers: seq<Peer>): real
    requires peers != []
  {
    PluralityOf(Histogram(peers)).count as real / |peers| as real
  }

  function GateStatus(tied: bool, quorum: real, threshold: real): ConvergenceStatus {
    if tied then Divergent else if quorum >= threshold then Converged else Partial
  }

  function Convergence(peers: seq<Peer>, threshold: real): ConvergenceReport {
    var t := EffectiveThreshold(threshold);
    if peers == [] then ConvergenceReport(Divergent, None, t, 0.0, 0, map[], map[], [])
    else
      var p := PluralityOf(Histogram(peers));
      var status := GateStatus(p.tied, Quorum(peers), t);
      var consensus := if p.tied then None else p.best;
      ConvergenceReport(status, consensus, t, Quorum(peers), |peers|, Histogram(peers), SortedBuckets(peers),
                        if consensus.Some? then Loci(peers, consensus.value) else [])
  }

  method MerkleConvergeWithThreshold(peers: seq<Peer>, threshold: real) returns (report: ConvergenceReport)
    ensures report == Convergence(peers, threshold)
  {
    hide Histogram, Buckets, SortedBuckets, PluralityOf, Loci;
    var t := threshold;
    if t <= 0.0 || t > 1.0 {
      t := DEFAULT_THRESHOLD;
    }
    report := ConvergenceReport(Divergent, None, t, 0.0, |peers|, map[], map[], []);
    if |peers| == 0 {
      return;
    }
    var histogram, buckets := CountRoots(peers);
    buckets := SortBuckets(peers, buckets);
    report := report.(histogram := histogram, bucketAgents := buckets);
    var p := PluralityRoot(histogram);
    report := report.(quorum := p.count as real / |peers| as real);
    if p.tied {
      report := report.(status := Divergent);
    } else if report.quorum >= t {
      report := report.(status := Converged, consensusRoot := p.best);
    } else {
      report := report.(status := Partial, consensusRoot := p.best);
    }
    if report.consensusRoot.Some? {
      var loci := ComputeDivergenceLoci(peers, report.consensusRoot.value);
      report := report.(loci := loci);
    }
  }

  function ConsensusBucketAgents(report: ConvergenceReport): seq<string> {
    if report.consensusRoot.Some? && report.consensusRoot.value in report.bucketAgents
    then report.bucketAgents[report.consensusRoot.value] else []
  }
}
