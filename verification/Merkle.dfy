/** Merkle attestation of a causal graph (speculative_merkle.go). The hash is symbolic: a
    digest is the tree of what was hashed, so it is injective and tags keep leaves and
    internal nodes apart. */
module Merkle {
  import opened Sorting
  import opened Text
  import opened Causal
  import opened Leaves

  datatype Digest = Leaf(preimage: string) | Internal(left: Digest, right: Digest)

  const EMPTY_ROOT := Leaf("empty" + [NUL])

  function CanonicalLeaf(n: CausalNode): Digest {
    Leaf(Preimage(n))
  }

  // ---- an order on digests, standing for the order of their hexadecimal text ----

  predicate DigestLE(a: Digest, b: Digest) {
    match (a, b)
    case (Leaf(p), Leaf(q)) => StringLE(p, q)
    case (Leaf(_), Internal(_, _)) => true
    case (Internal(_, _), Leaf(_)) => false
    case (Internal(l, r), Internal(l', r')) => DigestLE(l, l') && (l != l' || DigestLE(r, r'))
  }

  lemma {:induction false} DigestTotal(a: Digest, b: Digest)
    ensures DigestLE(a, b) || DigestLE(b, a)
  {
    StringOrder();
    if a.Internal? && b.Internal? {
      DigestTotal(a.left, b.left);
      DigestTotal(a.right, b.right);
    }
  }

  lemma {:induction false} DigestAntisymmetric(a: Digest, b: Digest)
    requires DigestLE(a, b) && DigestLE(b, a)
    ensures a == b
  {
    StringOrder();
    if a.Internal? && b.Internal? {
      DigestAntisymmetric(a.left, b.left);
      DigestAntisymmetric(a.right, b.right);
    }
  }

  lemma {:induction false} DigestTransitive(a: Digest, b: Digest, c: Digest)
    requires DigestLE(a, b) && DigestLE(b, c)
    ensures DigestLE(a, c)
  {
    StringOrder();
    if a.Internal? && b.Internal? && c.Internal? {
      DigestTransitive(a.left, b.left, c.left);
      if a.left == c.left {
        DigestAntisymmetric(a.left, b.left);
        DigestTransitive(a.right, b.right, c.right);
      }
    }
  }

  lemma DigestOrder()
    ensures TotalPreorder(DigestLE) && Antisymmetric(DigestLE)
  {
    forall a, b ensures DigestLE(a, b) || DigestLE(b, a) {
      DigestTotal(a, b);
    }
    forall a, b, c | DigestLE(a, b) && DigestLE(b, c) ensures DigestLE(a, c) {
      DigestTransitive(a, b, c);
    }
    forall a, b | DigestLE(a, b) && DigestLE(b, a) ensures a == b {
      DigestAntisymmetric(a, b);
    }
  }

  // ---- the tree ----

  /** One level up: neighbours paired, an odd last one paired with itself. */
  function NextLevel(level: seq<Digest>): (r: seq<Digest>)
    ensures |r| == (|level| + 1) / 2
  {
    if level == [] then []
    else if |level| == 1 then [Internal(level[0], level[0])]
    else [Internal(level[0], level[1])] + NextLevel(level[2..])
  }

  function Root(leaves: seq<Digest>): Digest
    decreases |leaves|
  {
    if leaves == [] then EMPTY_ROOT
    else if |leaves| == 1 then leaves[0]
    else Root(NextLevel(leaves))
  }

  lemma {:induction false} NextLevelAt(level: seq<Digest>, k: nat)
    requires 2 * k < |level|
    ensures NextLevel(level)[k] == Internal(level[2 * k], level[if 2 * k + 1 < |level| then 2 * k + 1 else 2 * k])
  {
    if |level| > 1 && k > 0 {
      NextLevelAt(level[2..], k - 1);
    }
  }

  lemma RootStep(level: seq<Digest>)
    ensures |level| == 0 ==> Root(level) == EMPTY_ROOT
    ensures |level| == 1 ==> Root(level) == level[0]
    ensures |level| > 1 ==> Root(level) == Root(NextLevel(level))
  {
    hide NextLevel;
  }

  /** Level by level, pair by pair. */
  method MerkleRootFromSortedLeaves(leaves: seq<Digest>) returns (root: Digest)
    ensures root == Root(leaves)
  {
    hide Root, NextLevel;
    RootStep(leaves);
    if |leaves| == 0 {
      return EMPTY_ROOT;
    }
    var level := leaves;
    while |level| > 1
      invariant |level| > 0 && Root(level) == Root(leaves)
      decreases |level|
    {
      var next: seq<Digest> := [];
      var i := 0;
      while i < |level|
        invariant 0 <= i <= |level| + 1 && i == 2 * |next|
        invariant |next| <= |NextLevel(level)|
        invariant forall k :: 0 <= k < |next| ==> next[k] == NextLevel(level)[k]
        decreases |level| - i
      {
        var left := level[i];
        var right := left;
        if i + 1 < |level| {
          right := level[i + 1];
        }
        NextLevelAt(level, |next|);
        next := next + [Internal(left, right)];
        i := i + 2;
      }
      assert next == NextLevel(level);
      RootStep(level);
      level := next;
    }
    RootStep(level);
    root := level[0];
  }

  // ---- what a root determines ----

  /** The leaves at the bottom of a digest. */
  function Bottom(d: Digest): set<Digest> {
    match d
    case Leaf(_) => {d}
    case Internal(l, r) => Bottom(l) + Bottom(r)
  }

  function Bottoms(ds: seq<Digest>): set<Digest> {
    if ds == [] then {} else Bottom(ds[0]) + Bottoms(ds[1..])
  }

  function Members(ds: seq<Digest>): (r: set<Digest>)
    ensures forall d :: d in r <==> d in ds
  {
    set d | d in ds
  }

  ghost predicate AllLeaves(ds: seq<Digest>) {
    forall d :: d in ds ==> d.Leaf?
  }

  /** Leaves of real nodes, none of them the mark of the empty graph. */
  ghost predicate NodeLeaves(ds: seq<Digest>) {
    AllLeaves(ds) && EMPTY_ROOT !in ds
  }

  lemma {:induction false} BottomsOfLeaves(ds: seq<Digest>)
    requires AllLeaves(ds)
    ensures Bottoms(ds) == Members(ds)
  {
    if ds != [] {
      BottomsOfLeaves(ds[1..]);
    }
  }

  lemma {:induction false} LevelKeepsBottoms(ds: seq<Digest>)
    ensures Bottoms(NextLevel(ds)) == Bottoms(ds)
    decreases |ds|
  {
    if |ds| == 1 {
      assert NextLevel(ds)[1..] == [] && ds[1..] == [];
    } else if |ds| > 1 {
      LevelKeepsBottoms(ds[2..]);
      assert NextLevel(ds)[1..] == NextLevel(ds[2..]);
      assert ds[1..][1..] == ds[2..] && ds[1..][0] == ds[1];
    }
  }

  lemma {:induction false} RootKeepsBottoms(ds: seq<Digest>)
    requires ds != []
    ensures Bottom(Root(ds)) == Bottoms(ds)
    decreases |ds|
  {
    if |ds| == 1 {
      assert ds[1..] == [];
    } else {
      LevelKeepsBottoms(ds);
      RootKeepsBottoms(NextLevel(ds));
    }
  }

  lemma RootBottom(ds: seq<Digest>)
    requires NodeLeaves(ds)
    ensures Bottom(Root(ds)) == if ds == [] then {EMPTY_ROOT} else Members(ds)
    ensures EMPTY_ROOT !in Members(ds)
  {
    hide Bottoms, Root, Bottom;
    EmptyRootIs();
    if ds != [] {
      BottomsOfLeaves(ds);
      RootKeepsBottoms(ds);
    }
  }

  /** Equal roots have equal leaf sets, for leaf lists of any two lengths, the empty one included. */
  lemma RootDeterminesLeafSet(ds: seq<Digest>, es: seq<Digest>)
    requires NodeLeaves(ds) && NodeLeaves(es) && Root(ds) == Root(es)
    ensures Members(ds) == Members(es)
  {
    hide Root, Bottom, NodeLeaves;
    RootBottom(ds);
    RootBottom(es);
  }

  lemma EmptyRootIs()
    ensures Root([]) == EMPTY_ROOT && Bottom(EMPTY_ROOT) == {EMPTY_ROOT}
  {
  }

  lemma {:induction false} LevelInjective(ds: seq<Digest>, es: seq<Digest>)
    requires |ds| == |es| && NextLevel(ds) == NextLevel(es)
    ensures ds == es
  {
    forall i | 0 <= i < |ds| ensures ds[i] == es[i] {
      NextLevelAt(ds, i / 2);
      NextLevelAt(es, i / 2);
    }
  }

  /** Lists are the same exactly when root and leaf count are. */
  lemma {:induction false} RootAndCountDetermineLeaves(ds: seq<Digest>, es: seq<Digest>)
    ensures ds == es <==> Root(ds) == Root(es) && |ds| == |es|
    decreases |ds|
  {
    hide NextLevel;
    if Root(ds) == Root(es) && |ds| == |es| {
      if |ds| == 1 {
        assert ds == [ds[0]] && es == [es[0]];
      } else if |ds| > 1 {
        RootAndCountDetermineLeaves(NextLevel(ds), NextLevel(es));
        LevelInjective(ds, es);
      }
    }
  }

  /** Without the count the list is not determined: a list of odd length and its extension by
      its own last leaf are indistinguishable. */
  lemma OddLeafCollides(ds: seq<Digest>)
    requires |ds| > 1 && |ds| % 2 == 1
    ensures Root(ds) == Root(ds + [ds[|ds| - 1]])
  {
    hide Root, NextLevel;
    var es := ds + [ds[|ds| - 1]];
    assert |es| == |ds| + 1 && forall i :: 0 <= i < |ds| ==> es[i] == ds[i];
    assert |NextLevel(ds)| == |NextLevel(es)|;
    forall k | 0 <= k < |NextLevel(ds)| ensures NextLevel(ds)[k] == NextLevel(es)[k] {
      NextLevelAt(ds, k);
      NextLevelAt(es, k);
    }
    assert NextLevel(ds) == NextLevel(es);
    RootStep(ds);
    RootStep(es);
  }

  function Height(d: Digest): nat {
    match d
    case Leaf(_) => 0
    case Internal(l, _) => 1 + Height(l)
  }

  ghost predicate AllHeight(ds: seq<Digest>, h: nat) {
    forall d :: d in ds ==> Height(d) == h
  }

  lemma LevelHeight(ds: seq<Digest>, h: nat)
    requires AllHeight(ds, h)
    ensures AllHeight(NextLevel(ds), h + 1)
  {
    forall d | d in NextLevel(ds) ensures Height(d) == h + 1 {
      var k :| 0 <= k < |NextLevel(ds)| && NextLevel(ds)[k] == d;
      NextLevelAt(ds, k);
    }
  }

  lemma {:induction false} RootHeight(ds: seq<Digest>, h: nat)
    requires AllHeight(ds, h) && ds != []
    ensures Height(Root(ds)) >= h && (Height(Root(ds)) == h <==> |ds| == 1)
    decreases |ds|
  {
    hide NextLevel;
    if |ds| > 1 {
      LevelHeight(ds, h);
      RootHeight(NextLevel(ds), h + 1);
    }
  }

  lemma {:induction false} EqualRootsArePrefixes(ds: seq<Digest>, es: seq<Digest>, h: nat)
    requires AllHeight(ds, h) && AllHeight(es, h) && 0 < |ds| <= |es| && Root(ds) == Root(es)
    ensures ds == es[..|ds|]
    decreases |es|
  {
    hide NextLevel, AllHeight;
    RootHeight(ds, h);
    RootHeight(es, h);
    RootStep(ds);
    RootStep(es);
    if |ds| == 1 {
    } else {
      LevelHeight(ds, h);
      LevelHeight(es, h);
      EqualRootsArePrefixes(NextLevel(ds), NextLevel(es), h + 1);
      forall i | 0 <= i < |ds| ensures ds[i] == es[i] {
        NextLevelAt(ds, i / 2);
        NextLevelAt(es, i / 2);
        assert NextLevel(es)[..|NextLevel(ds)|][i / 2] == NextLevel(es)[i / 2];
      }
    }
  }

  /** That is the only ambiguity: of two sorted lists with one root, the longer is the shorter
      followed by copies of its last leaf. */
  lemma EqualRootsDifferByLastLeaf(ds: seq<Digest>, es: seq<Digest>)
    requires NodeLeaves(ds) && NodeLeaves(es) && Sorted(ds, DigestLE) && Sorted(es, DigestLE)
    requires 0 < |ds| <= |es| && Root(ds) == Root(es)
    ensures ds == es[..|ds|] && forall k :: |ds| <= k < |es| ==> es[k] == ds[|ds| - 1]
  {
    hide Root, DigestLE;
    EqualRootsArePrefixes(ds, es, 0);
    RootDeterminesLeafSet(ds, es);
    DigestOrder();
    forall k | |ds| <= k < |es| ensures es[k] == ds[|ds| - 1] {
      assert es[k] in Members(es) && es[k] in Members(ds);
      var i :| 0 <= i < |ds| && ds[i] == es[k];
      assert es[|ds| - 1] == ds[|ds| - 1];
      assert DigestLE(es[|ds| - 1], es[k]);
      assert i == |ds| - 1 || DigestLE(ds[i], ds[|ds| - 1]);
    }
  }

  // ---- exactly which lists share a root ----

  /** `front` followed by as many copies of `x` as make `n` digests. */
  function Run(front: seq<Digest>, x: Digest, n: nat): (r: seq<Digest>)
    requires |front| <= n
    ensures |r| == n
    ensures forall i :: 0 <= i < n ==> r[i] == if i < |front| then front[i] else x
  {
    front + seq(n - |front|, _ => x)
  }

  /** Lists of `n` and of `m` digests that share `start` of them, then repeat one digest other
      than the last shared, come to one list on some level: rounding up the halves hides the
      difference before either list is a single digest or its repeats are used up. */
  predicate Merge(start: nat, n: nat, m: nat)
    decreases n
  {
    n == m || (start < n && start < m && n > 1 && m > 1 && Merge((start + 1) / 2, (n + 1) / 2, (m + 1) / 2))
  }

  ghost predicate EndsOtherwise(front: seq<Digest>, x: Digest) {
    front != [] ==> front[|front| - 1] != x
  }

  function Evened(front: seq<Digest>, x: Digest): seq<Digest> {
    if |front| % 2 == 0 then front else front + [x]
  }

  lemma LevelOfRunAt(front: seq<Digest>, x: Digest, m: nat, k: nat)
    requires |front| < m && 2 * k < m
    ensures NextLevel(Run(front, x, m))[k]
         == if 2 * k < |front| then NextLevel(Evened(front, x))[k] else Internal(x, x)
  {
    hide NextLevel;
    NextLevelAt(Run(front, x, m), k);
    if 2 * k < |front| {
      NextLevelAt(Evened(front, x), k);
    }
  }

  /** One level up a run is a run, of pairs of its digest. */
  lemma LevelOfRun(front: seq<Digest>, x: Digest, n: nat) returns (up: seq<Digest>)
    requires |front| < n && EndsOtherwise(front, x)
    ensures |up| == (|front| + 1) / 2 && EndsOtherwise(up, Internal(x, x))
    ensures |front| % 2 == 0 ==> up == NextLevel(front)
    ensures forall m: nat :: |front| < m ==> NextLevel(Run(front, x, m)) == Run(up, Internal(x, x), (m + 1) / 2)
  {
    hide NextLevel;
    up := NextLevel(Evened(front, x));
    if up != [] {
      NextLevelAt(Evened(front, x), |up| - 1);
    }
    hide Evened;
    forall m: nat | |front| < m ensures NextLevel(Run(front, x, m)) == Run(up, Internal(x, x), (m + 1) / 2) {
      forall k | 0 <= k < (m + 1) / 2 ensures NextLevel(Run(front, x, m))[k] == Run(up, Internal(x, x), (m + 1) / 2)[k] {
        LevelOfRunAt(front, x, m, k);
      }
    }
  }

  lemma RunHeight(front: seq<Digest>, x: Digest, n: nat, h: nat)
    requires |front| <= n && AllHeight(front, h) && Height(x) == h
    ensures AllHeight(Run(front, x, n), h)
  {
    hide Height;
  }

  lemma RunOfNone(front: seq<Digest>, x: Digest)
    ensures Run(front, x, |front|) == front
  {
  }

  /** Repeats of another digest than the last are always noticed. */
  lemma {:induction false} NewDigestShows(front: seq<Digest>, x: Digest, n: nat, h: nat)
    requires front != [] && |front| < n && EndsOtherwise(front, x) && AllHeight(front, h) && Height(x) == h
    ensures Root(front) != Root(Run(front, x, n))
    decreases n
  {
    hide Root, NextLevel, AllHeight;
    var run := Run(front, x, n);
    RunHeight(front, x, n, h);
    RootHeight(front, h);
    RootHeight(run, h);
    if |front| > 1 {
      RootStep(front);
      RootStep(run);
      LevelHeight(front, h);
      LevelHeight(run, h);
      if |front| % 2 == 0 {
        var up := LevelOfRun(front, x, n);
        NewDigestShows(up, Internal(x, x), (n + 1) / 2, h + 1);
      } else {
        OddFrontShows(front, x, n);
        if Root(front) == Root(run) {
          EqualRootsArePrefixes(NextLevel(front), NextLevel(run), h + 1);
        }
      }
    }
  }

  lemma OddFrontShows(front: seq<Digest>, x: Digest, n: nat)
    requires |front| % 2 == 1 && |front| < n && EndsOtherwise(front, x)
    ensures |NextLevel(front)| <= |NextLevel(Run(front, x, n))|
    ensures NextLevel(front) != NextLevel(Run(front, x, n))[..|NextLevel(front)|]
  {
    hide NextLevel;
    var run, last := Run(front, x, n), |front| / 2;
    NextLevelAt(front, last);
    NextLevelAt(run, last);
    assert NextLevel(run)[..|NextLevel(front)|][last] == NextLevel(run)[last];
  }

  lemma {:induction false} RunsShareRoot(front: seq<Digest>, x: Digest, n: nat, m: nat, h: nat)
    requires |front| <= n && |front| <= m && n >= 1 && m >= 1
    requires EndsOtherwise(front, x) && AllHeight(front, h) && Height(x) == h
    ensures Root(Run(front, x, n)) == Root(Run(front, x, m)) <==> Merge(|front|, n, m)
    decreases n
  {
    hide Root, NextLevel, AllHeight, Run, EndsOtherwise, Height;
    RunOfNone(front, x);
    if n != m {
      if n == |front| {
        NewDigestShows(front, x, m, h);
      } else if m == |front| {
        NewDigestShows(front, x, n, h);
      } else {
        RunsAbove(front, x, n, m, h);
        if n > 1 && m > 1 {
          var up := LevelOfRun(front, x, n);
          UpHeight(front, x, n, up, h);
          RunsShareRoot(up, Internal(x, x), (n + 1) / 2, (m + 1) / 2, h + 1);
        }
      }
    }
  }

  lemma RunsAbove(front: seq<Digest>, x: Digest, n: nat, m: nat, h: nat)
    requires |front| < n && |front| < m && n != m && AllHeight(front, h) && Height(x) == h
    ensures n > 1 ==> Root(Run(front, x, n)) == Root(NextLevel(Run(front, x, n)))
    ensures m > 1 ==> Root(Run(front, x, m)) == Root(NextLevel(Run(front, x, m)))
    ensures n == 1 || m == 1 ==> Root(Run(front, x, n)) != Root(Run(front, x, m))
  {
    hide Root, NextLevel, AllHeight, Run;
    RootStep(Run(front, x, n));
    RootStep(Run(front, x, m));
    RunHeight(front, x, n, h);
    RunHeight(front, x, m, h);
    RootHeight(Run(front, x, n), h);
    RootHeight(Run(front, x, m), h);
  }

  lemma UpHeight(front: seq<Digest>, x: Digest, n: nat, up: seq<Digest>, h: nat)
    requires |front| < n && |up| <= (n + 1) / 2 && NextLevel(Run(front, x, n)) == Run(up, Internal(x, x), (n + 1) / 2)
    requires AllHeight(front, h) && Height(x) == h
    ensures AllHeight(up, h + 1) && Height(Internal(x, x)) == h + 1
  {
    RunHeight(front, x, n, h);
    LevelHeight(Run(front, x, n), h);
    hide NextLevel, Height;
    var all := NextLevel(Run(front, x, n));
    assert forall i :: 0 <= i < |up| ==> up[i] == all[i] && all[i] in all;
  }

  /** Where the run of the last digest starts. */
  function RunStart(ds: seq<Digest>): (i: nat)
    requires ds != []
    ensures i < |ds| && (forall k :: i <= k < |ds| ==> ds[k] == ds[|ds| - 1])
    ensures EndsOtherwise(ds[..i], ds[|ds| - 1])
  {
    if |ds| == 1 || ds[|ds| - 2] != ds[|ds| - 1] then |ds| - 1
    else
      var i := RunStart(ds[..|ds| - 1]);
      assert ds[..|ds| - 1][..i] == ds[..i];
      i
  }

  /** Alike up to the run of the last digest, and lengths that merge. */
  ghost predicate Merging(ds: seq<Digest>, es: seq<Digest>)
    requires ds != [] && es != []
  {
    var s := RunStart(ds);
    && ds[|ds| - 1] == es[|es| - 1] && s == RunStart(es)
    && ds[..s] == es[..s]
    && Merge(s, |ds|, |es|)
  }

  lemma RunStartIs(ds: seq<Digest>, i: nat)
    requires i < |ds| && (forall k :: i <= k < |ds| ==> ds[k] == ds[|ds| - 1]) && EndsOtherwise(ds[..i], ds[|ds| - 1])
    ensures RunStart(ds) == i
  {
    var s := RunStart(ds);
    assert forall k :: 0 <= k < i ==> ds[..i][k] == ds[k];
    assert forall k :: 0 <= k < s ==> ds[..s][k] == ds[k];
  }

  lemma ListIsRun(ds: seq<Digest>)
    requires ds != []
    ensures ds == Run(ds[..RunStart(ds)], ds[|ds| - 1], |ds|)
  {
  }

  lemma MergingShareRoot(ds: seq<Digest>, es: seq<Digest>)
    requires NodeLeaves(ds) && NodeLeaves(es) && ds != [] && es != []
    requires ds[|ds| - 1] == es[|es| - 1] && RunStart(ds) == RunStart(es) && ds[..RunStart(ds)] == es[..RunStart(ds)]
    ensures Root(ds) == Root(es) <==> Merge(RunStart(ds), |ds|, |es|)
  {
    hide Root, Run;
    var front, x := ds[..RunStart(ds)], ds[|ds| - 1];
    ListIsRun(ds);
    ListIsRun(es);
    assert forall d :: d in front ==> d in ds;
    assert x in ds;
    RunsShareRoot(front, x, |ds|, |es|, 0);
  }

  lemma EqualRootsAlike(ds: seq<Digest>, es: seq<Digest>)
    requires NodeLeaves(ds) && NodeLeaves(es) && Sorted(ds, DigestLE) && Sorted(es, DigestLE)
    requires 0 < |ds| <= |es| && Root(ds) == Root(es)
    ensures ds[|ds| - 1] == es[|es| - 1] && RunStart(ds) == RunStart(es) && ds[..RunStart(ds)] == es[..RunStart(ds)]
  {
    hide Root, DigestLE, NodeLeaves;
    EqualRootsDifferByLastLeaf(ds, es);
    var s := RunStart(ds);
    assert forall i :: 0 <= i < |ds| ==> ds[i] == es[i];
    assert ds[..s] == es[..s];
    RunStartIs(es, s);
  }

  /** Two sorted leaf lists have one root exactly when they merge. */
  lemma SharedRootIsExact(ds: seq<Digest>, es: seq<Digest>)
    requires NodeLeaves(ds) && NodeLeaves(es) && Sorted(ds, DigestLE) && Sorted(es, DigestLE) && ds != [] && es != []
    ensures Root(ds) == Root(es) <==> Merging(ds, es)
  {
    hide Root, DigestLE, NodeLeaves, Merge, RunStart;
    if Root(ds) == Root(es) {
      if |ds| <= |es| {
        EqualRootsAlike(ds, es);
      } else {
        EqualRootsAlike(es, ds);
      }
      MergingShareRoot(ds, es);
    } else if ds[|ds| - 1] == es[|es| - 1] && RunStart(ds) == RunStart(es) && ds[..RunStart(ds)] == es[..RunStart(ds)] {
      MergingShareRoot(ds, es);
    }
  }

  /** For sorted lists without duplicates the root says exactly which leaves there are. */
  lemma DistinctLeavesRoot(ds: seq<Digest>, es: seq<Digest>)
    requires NodeLeaves(ds) && NodeLeaves(es)
    requires Distinct(ds) && Distinct(es) && Sorted(ds, DigestLE) && Sorted(es, DigestLE)
    ensures Root(ds) == Root(es) <==> Members(ds) == Members(es)
  {
    hide Root, NodeLeaves, DigestLE;
    if Root(ds) == Root(es) {
      RootDeterminesLeafSet(ds, es);
    }
    if Members(ds) == Members(es) {
      forall x ensures x in ds <==> x in es {
        assert x in Members(ds) <==> x in Members(es);
      }
      DistinctSameSet(ds, es);
      DigestOrder();
      SortedIsCanonical(ds, es, DigestLE);
    }
  }

  // ---- attesting a graph ----

  datatype Attestation = Attestation(root: Digest, leafCount: nat, leafHashes: seq<Digest>, graphSize: nat)

  function SortedLeaves(nodes: seq<CausalNode>): (r: seq<Digest>)
    ensures |r| == |nodes|
  {
    Sort(Map(CanonicalLeaf, nodes), DigestLE)
  }

  function Attest(graph: Option<CausalGraph>, includeLeafHashes: bool): Attestation {
    if graph == None || graph.value.nodes == [] then Attestation(EMPTY_ROOT, 0, [], 0)
    else
      var leaves := SortedLeaves(graph.value.nodes);
      Attestation(Root(leaves), |leaves|, if includeLeafHashes then leaves else [], |graph.value.nodes|)
  }

  /** The nodes of a graph that may be missing. */
  function NodesOf(graph: Option<CausalGraph>): seq<CausalNode> {
    if graph.Some? then graph.value.nodes else []
  }

  method MerkleAttestWithConfig(graph: Option<CausalGraph>, includeLeafHashes: bool) returns (att: Attestation)
    ensures att == Attest(graph, includeLeafHashes)
  {
    hide Sort, Root, DigestLE, CanonicalLeaf;
    if graph == None || |graph.value.nodes| == 0 {
      return Attestation(EMPTY_ROOT, 0, [], 0);
    }
    var nodes := graph.value.nodes;
    var leaves: seq<Digest> := [];
    for i := 0 to |nodes|
      invariant leaves == Map(CanonicalLeaf, nodes[..i])
    {
      leaves := leaves + [CanonicalLeaf(nodes[i])];
    }
    assert nodes[..|nodes|] == nodes;
    leaves := Sort(leaves, DigestLE);
    var root := MerkleRootFromSortedLeaves(leaves);
    att := Attestation(root, |leaves|, if includeLeafHashes then leaves else [], |nodes|);
  }

  lemma CanonicalLeavesAreNodeLeaves(nodes: seq<CausalNode>)
    ensures NodeLeaves(SortedLeaves(nodes)) && Sorted(SortedLeaves(nodes), DigestLE)
    ensures forall d :: d in SortedLeaves(nodes) <==> exists n :: n in nodes && CanonicalLeaf(n) == d
  {
    hide DigestLE, Preimage, TotalPreorder, Antisymmetric;
    DigestOrder();
    var leaves := Map(CanonicalLeaf, nodes);
    SortSorts(leaves, DigestLE);
    forall d ensures d in SortedLeaves(nodes) <==> exists n :: n in nodes && CanonicalLeaf(n) == d {
      SortKeepsMember(leaves, DigestLE, d);
      if n :| n in nodes && CanonicalLeaf(n) == d {
        var i :| 0 <= i < |nodes| && nodes[i] == n;
        assert leaves[i] == d;
      }
    }
    forall d | d in SortedLeaves(nodes) ensures d.Leaf? && d != EMPTY_ROOT {
      var n :| n in nodes && CanonicalLeaf(n) == d;
      PreimageIsNeverEmptyMark(n);
    }
  }

  /** The attestation does not depend on the order of the nodes. */
  lemma AttestForgetsNodeOrder(nodes: seq<CausalNode>, nodes': seq<CausalNode>, includeLeafHashes: bool)
    requires multiset(nodes) == multiset(nodes')
    ensures Attest(Some(CausalGraph(nodes)), includeLeafHashes) == Attest(Some(CausalGraph(nodes')), includeLeafHashes)
  {
    hide DigestLE, Sort, Map, Root, TotalPreorder, Antisymmetric;
    SameLength(nodes, nodes');
    DigestOrder();
    MapOfPermutation(CanonicalLeaf, nodes, nodes');
    SortForgetsOrder(Map(CanonicalLeaf, nodes), Map(CanonicalLeaf, nodes'), DigestLE);
  }

  /** An empty graph is told apart from every other. */
  lemma EmptyIsDistinguished(graph: Option<CausalGraph>, includeLeafHashes: bool)
    ensures Attest(graph, includeLeafHashes).root == EMPTY_ROOT <==> NodesOf(graph) == []
  {
    if NodesOf(graph) != [] {
      var leaves := SortedLeaves(NodesOf(graph));
      CanonicalLeavesAreNodeLeaves(NodesOf(graph));
      EmptyRootIs();
      hide Root, CanonicalLeaf, DigestLE, Sort;
      RootBottom(leaves);
      assert leaves[0] in Members(leaves);
    }
  }

  lemma LeafMeaning(a: CausalNode, b: CausalNode)
    requires NulFree(a) && NulFree(b)
    ensures CanonicalLeaf(a) == CanonicalLeaf(b) <==> SameMechanism(a, b)
  {
    PreimageMeaning(a, b);
    hide Preimage, SameMechanism;
  }

  ghost predicate AllNulFree(nodes: seq<CausalNode>) {
    forall n :: n in nodes ==> NulFree(n)
  }

  lemma DistinctLeaves(nodes: seq<CausalNode>)
    requires UniqueIds(nodes) && AllNulFree(nodes)
    ensures Distinct(SortedLeaves(nodes))
    ensures forall i, j :: 0 <= i < j < |nodes| ==> CanonicalLeaf(nodes[i]) != CanonicalLeaf(nodes[j])
  {
    hide CanonicalLeaf, DigestLE, NulFree;
    var leaves := Map(CanonicalLeaf, nodes);
    forall i, j | 0 <= i < j < |nodes| ensures CanonicalLeaf(nodes[i]) != CanonicalLeaf(nodes[j]) {
      LeafMeaning(nodes[i], nodes[j]);
    }
    SortPermutes(leaves, DigestLE);
    DistinctPermutation(leaves, Sort(leaves, DigestLE));
  }

  /** Every mechanism of the one graph is in the other. */
  ghost predicate Within(nodes: seq<CausalNode>, nodes': seq<CausalNode>) {
    forall n :: n in nodes ==> exists m :: m in nodes' && SameMechanism(n, m)
  }

  lemma WithinByLeaves(nodes: seq<CausalNode>, nodes': seq<CausalNode>)
    requires AllNulFree(nodes) && AllNulFree(nodes')
    ensures Within(nodes, nodes') <==> Members(SortedLeaves(nodes)) <= Members(SortedLeaves(nodes'))
  {
    hide CanonicalLeaf, SortedLeaves, SameMechanism, NulFree, DigestLE;
    CanonicalLeavesAreNodeLeaves(nodes);
    CanonicalLeavesAreNodeLeaves(nodes');
    if Within(nodes, nodes') {
      forall d | d in Members(SortedLeaves(nodes)) ensures d in Members(SortedLeaves(nodes')) {
        var n :| n in nodes && CanonicalLeaf(n) == d;
        var m :| m in nodes' && SameMechanism(n, m);
        LeafMeaning(n, m);
      }
    }
    if Members(SortedLeaves(nodes)) <= Members(SortedLeaves(nodes')) {
      forall n | n in nodes ensures exists m :: m in nodes' && SameMechanism(n, m) {
        assert CanonicalLeaf(n) in Members(SortedLeaves(nodes));
        var m :| m in nodes' && CanonicalLeaf(m) == CanonicalLeaf(n);
        LeafMeaning(n, m);
      }
    }
  }

  /** What root equality means, for graphs of uniquely named nodes: the same mechanisms up to
      case and spacing of summaries, the sixth decimal of weights, and how the concatenated
      lists are split. */
  lemma RootMeaning(g: CausalGraph, g': CausalGraph)
    requires UniqueIds(g.nodes) && UniqueIds(g'.nodes) && AllNulFree(g.nodes) && AllNulFree(g'.nodes)
    ensures Attest(Some(g), true).root == Attest(Some(g'), true).root <==> Within(g.nodes, g'.nodes) && Within(g'.nodes, g.nodes)
  {
    var ds, es := SortedLeaves(g.nodes), SortedLeaves(g'.nodes);
    AttestedRoot(g);
    AttestedRoot(g');
    hide Attest, CanonicalLeaf, SortedLeaves, Within, NodeLeaves, AllNulFree, Root, DigestLE;
    CanonicalLeavesAreNodeLeaves(g.nodes);
    CanonicalLeavesAreNodeLeaves(g'.nodes);
    DistinctLeaves(g.nodes);
    DistinctLeaves(g'.nodes);
    DistinctLeavesRoot(ds, es);
    WithinByLeaves(g.nodes, g'.nodes);
    WithinByLeaves(g'.nodes, g.nodes);
  }

  lemma AttestedRoot(g: CausalGraph)
    ensures Attest(Some(g), true).root == Root(SortedLeaves(g.nodes))
    ensures Attest(Some(g), true).leafHashes == SortedLeaves(g.nodes)
    ensures Attest(Some(g), true).leafCount == |g.nodes|
  {
  }

  /** What an attestation holds: the leaves of the nodes, one each, in order, if they are asked
      for, their number, and their root. */
  lemma AttestMeaning(graph: Option<CausalGraph>, includeLeafHashes: bool)
    ensures var a, nodes := Attest(graph, includeLeafHashes), NodesOf(graph);
      && a.leafCount == a.graphSize == |nodes|
      && (!includeLeafHashes ==> a.leafHashes == [])
      && a.root == Root(Attest(graph, true).leafHashes) && (nodes == [] ==> a.root == Leaf("empty" + [NUL]))
      && (includeLeafHashes ==> Sorted(a.leafHashes, DigestLE) && multiset(a.leafHashes) == multiset(Map(CanonicalLeaf, nodes)))
  {
    hide Root, DigestLE, CanonicalLeaf, Sort, TotalPreorder;
    EmptyRootIs();
    DigestOrder();
    SortSorts(Map(CanonicalLeaf, NodesOf(graph)), DigestLE);
    SortPermutes(Map(CanonicalLeaf, NodesOf(graph)), DigestLE);
  }

  // ---- and what it leaves open, on graphs ----

  lemma LastIsGreatest(ds: seq<Digest>, d: Digest)
    requires Sorted(ds, DigestLE) && d in ds && forall x :: x in ds ==> DigestLE(x, d)
    ensures ds[|ds| - 1] == d && Sorted(ds + [d], DigestLE)
  {
    hide DigestLE;
    DigestOrder();
    var k :| 0 <= k < |ds| && ds[k] == d;
    assert forall i :: 0 <= i < |ds| ==> ds[i] in ds;
    assert k < |ds| - 1 ==> DigestLE(ds[k], ds[|ds| - 1]);
  }

  lemma LeavesWithOneMore(nodes: seq<CausalNode>, n: CausalNode)
    requires n in nodes && forall m :: m in nodes ==> DigestLE(CanonicalLeaf(m), CanonicalLeaf(n))
    ensures SortedLeaves(nodes + [n]) == SortedLeaves(nodes) + [CanonicalLeaf(n)]
    ensures |nodes| > 0 && SortedLeaves(nodes)[|nodes| - 1] == CanonicalLeaf(n)
  {
    hide DigestLE, CanonicalLeaf, Sort, Map, NodeLeaves;
    var d, ds := CanonicalLeaf(n), SortedLeaves(nodes);
    DigestOrder();
    CanonicalLeavesAreNodeLeaves(nodes);
    CanonicalLeavesAreNodeLeaves(nodes + [n]);
    LastIsGreatest(ds, d);
    MapOfConcat(CanonicalLeaf, nodes, [n]);
    SortPermutes(Map(CanonicalLeaf, nodes), DigestLE);
    SortPermutes(Map(CanonicalLeaf, nodes + [n]), DigestLE);
    SingleMap(n);
    SortedIsCanonical(SortedLeaves(nodes + [n]), ds + [d], DigestLE);
  }

  lemma SingleMap(n: CausalNode)
    ensures Map(CanonicalLeaf, [n]) == [CanonicalLeaf(n)]
  {
    hide CanonicalLeaf;
  }

  ghost predicate MergingGraphs(g: CausalGraph, g': CausalGraph) {
    (g.nodes == [] <==> g'.nodes == []) && (g.nodes != [] ==> Merging(SortedLeaves(g.nodes), SortedLeaves(g'.nodes)))
  }

  /** When any two graphs share a root, names repeated or not. */
  lemma SharedRootOfGraphs(g: CausalGraph, g': CausalGraph)
    ensures Attest(Some(g), true).root == Attest(Some(g'), true).root <==> MergingGraphs(g, g')
  {
    hide Attest, SortedLeaves, Root, DigestLE, Merging, NodeLeaves;
    EmptyIsDistinguished(Some(g), true);
    EmptyIsDistinguished(Some(g'), true);
    if g.nodes != [] && g'.nodes != [] {
      AttestedRoot(g);
      AttestedRoot(g');
      CanonicalLeavesAreNodeLeaves(g.nodes);
      CanonicalLeavesAreNodeLeaves(g'.nodes);
      SharedRootIsExact(SortedLeaves(g.nodes), SortedLeaves(g'.nodes));
    }
  }

  /** Two graphs with one root: an odd number of nodes, and the same with the greatest once more. */
  lemma RepeatedNodeIsHidden(nodes: seq<CausalNode>, n: CausalNode)
    requires |nodes| > 1 && |nodes| % 2 == 1
    requires n in nodes && forall m :: m in nodes ==> DigestLE(CanonicalLeaf(m), CanonicalLeaf(n))
    ensures var g, h := CausalGraph(nodes), CausalGraph(nodes + [n]);
      Attest(Some(g), true).root == Attest(Some(h), true).root
      && Attest(Some(h), true).leafCount == Attest(Some(g), true).leafCount + 1
  {
    LeavesWithOneMore(nodes, n);
    hide DigestLE, CanonicalLeaf, SortedLeaves, Root, Attest;
    AttestedRoot(CausalGraph(nodes));
    AttestedRoot(CausalGraph(nodes + [n]));
    OddLeafCollides(SortedLeaves(nodes));
  }

  lemma {:induction false} SomeLeafIsGreatest(nodes: seq<CausalNode>) returns (n: CausalNode)
    requires nodes != []
    ensures n in nodes && forall m :: m in nodes ==> DigestLE(CanonicalLeaf(m), CanonicalLeaf(n))
  {
    hide DigestLE, CanonicalLeaf;
    DigestOrder();
    n := nodes[0];
    if |nodes| > 1 {
      var other := SomeLeafIsGreatest(nodes[1..]);
      if DigestLE(CanonicalLeaf(n), CanonicalLeaf(other)) {
        n := other;
      }
      assert forall m :: m in nodes ==> m == nodes[0] || m in nodes[1..];
    }
  }

  /** Of every graph with an odd number of nodes, more than one, some node can be listed once
      more without changing the root; which one the order of the hashes says. */
  lemma SomeRepeatIsHidden(nodes: seq<CausalNode>) returns (n: CausalNode)
    requires |nodes| > 1 && |nodes| % 2 == 1
    ensures n in nodes
    ensures Attest(Some(CausalGraph(nodes)), true).root == Attest(Some(CausalGraph(nodes + [n])), true).root
  {
    hide DigestLE, CanonicalLeaf, Attest;
    n := SomeLeafIsGreatest(nodes);
    RepeatedNodeIsHidden(nodes, n);
  }

  function Bare(id: string): CausalNode {
    CausalNode(id, Evidence, "", [], [], 0.0, map[])
  }

  function RootOf(names: seq<string>): Digest {
    Attest(Some(CausalGraph(Map(Bare, names))), true).root
  }

  /** Concretely: of nodes a, b and c, one listed twice is not noticed. */
  lemma AbcHidesARepeat()
    ensures RootOf(["a", "b", "c"]) == RootOf(["a", "b", "c", "a"])
         || RootOf(["a", "b", "c"]) == RootOf(["a", "b", "c", "b"])
         || RootOf(["a", "b", "c"]) == RootOf(["a", "b", "c", "c"])
  {
    hide Attest, Bare;
    var nodes := [Bare("a"), Bare("b"), Bare("c")];
    assert Map(Bare, ["a", "b", "c"]) == nodes;
    assert Map(Bare, ["a", "b", "c", "a"]) == nodes + [nodes[0]];
    assert Map(Bare, ["a", "b", "c", "b"]) == nodes + [nodes[1]];
    assert Map(Bare, ["a", "b", "c", "c"]) == nodes + [nodes[2]];
    var n := SomeRepeatIsHidden(nodes);
  }

  /** Graphs that differ only in where the parents end have one root as well. */
  lemma ParentPassesForReference(n: CausalNode)
    ensures var g := CausalGraph([n.(parents := ["a", "b"], atomRefs := ["c"])]);
      var h := CausalGraph([n.(parents := ["a"], atomRefs := ["b", "c"])]);
      Attest(Some(g), true).root == Attest(Some(h), true).root
  {
    var p, q := n.(parents := ["a", "b"], atomRefs := ["c"]), n.(parents := ["a"], atomRefs := ["b", "c"]);
    ParentsAreNotDetermined(n);
    hide Preimage, Attest, Sort, Map;
    assert CanonicalLeaf(p) == CanonicalLeaf(q);
    SingleMap(p);
    SingleMap(q);
    AttestedRoot(CausalGraph([p]));
    AttestedRoot(CausalGraph([q]));
  }

  lemma MechanismsByCounts(n: CausalNode, m: CausalNode)
    requires SameMechanism(n, m) && ListsFree(n) && ListsFree(m)
    ensures SameLists(n, m) <==> |n.parents| == |m.parents| && |n.atomRefs| == |m.atomRefs|
  {
    hide ListsFree, Listed, Micro, Normalized, SameLists;
    ListsDeterminedByCounts(n, m);
  }

  lemma SameMechanismSameName(n: CausalNode, m: CausalNode)
    requires SameMechanism(n, m)
    ensures n.id == m.id
  {
    hide Listed, Micro, Normalized;
  }

  /** What a shared root says of two nodes of one name: the same mechanism, and the same lists
      exactly when they have as many parents and as many references. */
  lemma RootDeterminesNode(g: CausalGraph, g': CausalGraph, n: CausalNode, m: CausalNode)
    requires UniqueIds(g.nodes) && UniqueIds(g'.nodes) && AllNulFree(g.nodes) && AllNulFree(g'.nodes)
    requires Attest(Some(g), true).root == Attest(Some(g'), true).root
    requires n in g.nodes && m in g'.nodes && n.id == m.id && ListsFree(n) && ListsFree(m)
    ensures SameMechanism(n, m)
    ensures SameLists(n, m) <==> |n.parents| == |m.parents| && |n.atomRefs| == |m.atomRefs|
  {
    hide Attest, AllNulFree, UniqueIds, ListsFree, SameMechanism, SameLists;
    RootMeaning(g, g');
    var k :| k in g'.nodes && SameMechanism(n, k);
    SameMechanismSameName(n, k);
    OneNodePerName(g'.nodes, k, m);
    MechanismsByCounts(n, m);
  }
}
