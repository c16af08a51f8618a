/** Votes and the two quorum computations (ledger.go, buildQuorumState; consensus.go,
    computeQuorumState). */
module Quorum {
  import opened Text
  import opened Sorting

  datatype Vote = Vote(voter: string, entryId: string, approved: bool, reason: string, votedAt: int)

  datatype Strategy = NoStrategy | Direct | QuorumVote

  datatype Requirement = Requirement(
    strategy: Strategy, quorumKey: string, required: int, eligible: seq<string>, autoFinalize: bool)

  datatype QuorumState = QuorumState(
    quorumKey: string, required: int, eligible: seq<string>,
    approvals: int, rejections: int, missing: int, lastVoteAt: int,
    finalizable: bool, finalized: bool, rejected: bool)

  const NO_QUORUM := QuorumState("", 0, [], 0, 0, 0, 0, false, false, false)

  // ---- counting ----

  function Approvals(votes: seq<Vote>): (n: nat)
    ensures n <= |votes|
  {
    if votes == [] then 0 else Approvals(votes[..|votes| - 1]) + if votes[|votes| - 1].approved then 1 else 0
  }

  function Rejections(votes: seq<Vote>): (n: nat)
    ensures n <= |votes|
  {
    if votes == [] then 0 else Rejections(votes[..|votes| - 1]) + if votes[|votes| - 1].approved then 0 else 1
  }

  lemma {:induction false} EveryVoteCounts(votes: seq<Vote>)
    ensures Approvals(votes) + Rejections(votes) == |votes|
  {
    if votes != [] {
      EveryVoteCounts(votes[..|votes| - 1]);
    }
  }

  lemma {:induction false} CountsByMultiset(vs: seq<Vote>, ws: seq<Vote>)
    requires multiset(vs) == multiset(ws)
    ensures Approvals(vs) == Approvals(ws) && Rejections(vs) == Rejections(ws)
    decreases |vs|
  {
    if vs == [] {
      assert |multiset(ws)| == 0;
    } else {
      hide Approvals, Rejections;
      var last := |vs| - 1;
      SameMembers(vs, ws, last);
      var j := Occurrence(ws, vs[last]);
      RemoveOne(vs, last);
      RemoveOne(ws, j);
      CountsByMultiset(vs[..last] + vs[last + 1..], ws[..j] + ws[j + 1..]);
      CountsWithout(ws, j);
      CountsWithout(vs, last);
    }
  }

  lemma {:induction false} CountsWithout(ws: seq<Vote>, j: nat)
    requires j < |ws|
    ensures Approvals(ws) == Approvals(ws[..j] + ws[j + 1..]) + if ws[j].approved then 1 else 0
    ensures Rejections(ws) == Rejections(ws[..j] + ws[j + 1..]) + if ws[j].approved then 0 else 1
    decreases |ws|
  {
    var last := |ws| - 1;
    var r := ws[..j] + ws[j + 1..];
    if j == last {
      assert r == ws[..last];
    } else {
      CountsWithout(ws[..last], j);
      assert r[..|r| - 1] == ws[..last][..j] + ws[..last][j + 1..];
    }
  }

  // ---- the ledger's computation ----

  function Remaining(eligible: int, votes: int): int {
    if eligible - votes < 0 then 0 else eligible - votes
  }

  /** Enough rejections that the approvals still possible cannot reach the requirement. */
  predicate RejectedEarly(required: int, eligible: int, approvals: int, rejections: int) {
    rejections > 0 && approvals + Remaining(eligible, approvals + rejections) < required
  }

  predicate Settled(required: int, eligible: int, approvals: int, rejections: int) {
    approvals >= required || RejectedEarly(required, eligible, approvals, rejections)
  }

  /** buildQuorumState: an entry's stored quorum and requirement, brought up to date with its votes. */
  function BuiltQuorum(stored: Option<QuorumState>, req: Option<Requirement>, votes: seq<Vote>, closed: bool): QuorumState {
    var q0 := if stored.Some? then stored.value else NO_QUORUM;
    var q := if req.Some? then q0.(quorumKey := req.value.quorumKey, required := req.value.required, eligible := req.value.eligible) else q0;
    var a, r, n := Approvals(votes), Rejections(votes), |q.eligible|;
    QuorumState(q.quorumKey, q.required, q.eligible, a, r,
                if q.required - a < 0 then 0 else q.required - a,
                if votes != [] then votes[|votes| - 1].votedAt else q.lastVoteAt,
                Settled(q.required, n, a, r), closed, RejectedEarly(q.required, n, a, r))
  }

  method CountVotes(votes: seq<Vote>) returns (approvals: nat, rejections: nat)
    ensures approvals == Approvals(votes) && rejections == Rejections(votes)
  {
    approvals, rejections := 0, 0;
    for i := 0 to |votes|
      invariant approvals == Approvals(votes[..i]) && rejections == Rejections(votes[..i])
    {
      assert votes[..i + 1][..i] == votes[..i];
      if votes[i].approved {
        approvals := approvals + 1;
      } else {
        rejections := rejections + 1;
      }
    }
    assert votes[..|votes|] == votes;
  }

  method BuildQuorumState(stored: Option<QuorumState>, req: Option<Requirement>, votes: seq<Vote>, closed: bool)
    returns (q: QuorumState)
    ensures q == BuiltQuorum(stored, req, votes, closed)
  {
    q := if stored.Some? then stored.value else NO_QUORUM;
    if req.Some? {
      q := q.(quorumKey := req.value.quorumKey, required := req.value.required, eligible := req.value.eligible);
    }
    var approvals, rejections := CountVotes(votes);
    EveryVoteCounts(votes);
    var missing := q.required - approvals;
    if missing < 0 {
      missing := 0;
    }
    var lastVoteAt := q.lastVoteAt;
    if |votes| > 0 {
      lastVoteAt := votes[|votes| - 1].votedAt;
    }
    var remaining := |q.eligible| - |votes|;
    if remaining < 0 {
      remaining := 0;
    }
    var rejected := rejections > 0 && approvals + remaining < q.required;
    var finalizable := approvals >= q.required || rejected;
    q := QuorumState(q.quorumKey, q.required, q.eligible, approvals, rejections, missing, lastVoteAt,
                     finalizable, closed, rejected);
  }

  // ---- the consensus module's computation ----

  function Voters(votes: seq<Vote>): set<string> {
    if votes == [] then {} else Voters(votes[..|votes| - 1]) + {votes[|votes| - 1].voter}
  }

  /** The votes it counts: named voters, each once. */
  function Counted(votes: seq<Vote>): (r: seq<Vote>)
    ensures |r| <= |votes|
  {
    if votes == [] then []
    else
      var rest := Counted(votes[..|votes| - 1]);
      var v := votes[|votes| - 1];
      if v.voter == "" || v.voter in Voters(rest) then rest else rest + [v]
  }

  lemma {:induction false} VotersAre(votes: seq<Vote>, x: string)
    ensures x in Voters(votes) <==> exists i :: 0 <= i < |votes| && votes[i].voter == x
  {
    if votes != [] {
      VotersAre(votes[..|votes| - 1], x);
    }
  }

  /** What one more vote does to every tally. */
  lemma OneMoreVote(votes: seq<Vote>, v: Vote)
    ensures Approvals(votes + [v]) == Approvals(votes) + if v.approved then 1 else 0
    ensures Rejections(votes + [v]) == Rejections(votes) + if v.approved then 0 else 1
    ensures LatestVoteAt(votes + [v]) == if v.votedAt > LatestVoteAt(votes) then v.votedAt else LatestVoteAt(votes)
    ensures Voters(votes + [v]) == Voters(votes) + {v.voter}
  {
    assert (votes + [v])[..|votes|] == votes;
  }

  ghost predicate DistinctVoters(votes: seq<Vote>) {
    forall i, j :: 0 <= i < j < |votes| ==> votes[i].voter != votes[j].voter
  }

  lemma {:induction false} AllCounted(votes: seq<Vote>)
    requires DistinctVoters(votes) && forall v :: v in votes ==> v.voter != ""
    ensures Counted(votes) == votes
  {
    if votes != [] {
      var front, last := votes[..|votes| - 1], votes[|votes| - 1];
      AllCounted(front);
      VotersAre(front, last.voter);
      assert last in votes && votes == front + [last];
    }
  }

  function LatestVoteAt(votes: seq<Vote>): int {
    if votes == [] then 0
    else
      var t := LatestVoteAt(votes[..|votes| - 1]);
      if votes[|votes| - 1].votedAt > t then votes[|votes| - 1].votedAt else t
  }

  function ComputedQuorum(req: Requirement, votes: seq<Vote>): QuorumState {
    var vs := Counted(votes);
    var a, r, n := Approvals(vs), Rejections(vs), |req.eligible|;
    var rejected := a < req.required && n > 0 && n - r < req.required;
    QuorumState(req.quorumKey, req.required, req.eligible, a, r,
                if req.required - a > 0 then req.required - a else 0,
                LatestVoteAt(vs), a >= req.required || rejected, false, rejected)
  }

  method ComputeQuorumState(req: Requirement, votes: seq<Vote>) returns (state: QuorumState)
    ensures state == ComputedQuorum(req, votes)
  {
    hide Counted, Approvals, Rejections, LatestVoteAt, Voters;
    var seen: set<string> := {};
    var approvals, rejections, lastVoteAt := 0, 0, 0;
    NothingCounted();
    for i := 0 to |votes|
      invariant seen == Voters(Counted(votes[..i]))
      invariant approvals == Approvals(Counted(votes[..i])) && rejections == Rejections(Counted(votes[..i]))
      invariant lastVoteAt == LatestVoteAt(Counted(votes[..i]))
    {
      var vote := votes[i];
      CountedStep(votes, i);
      if vote.voter == "" {
        continue;
      }
      if vote.voter in seen {
        continue;
      }
      OneMoreVote(Counted(votes[..i]), vote);
      seen := seen + {vote.voter};
      if vote.approved {
        approvals := approvals + 1;
      } else {
        rejections := rejections + 1;
      }
      if vote.votedAt > lastVoteAt {
        lastVoteAt := vote.votedAt;
      }
    }
    assert votes[..|votes|] == votes;
    state := QuorumState(req.quorumKey, req.required, req.eligible, approvals, rejections,
                         if req.required - approvals > 0 then req.required - approvals else 0,
                         lastVoteAt, false, false, false);
    if approvals >= req.required {
      state := state.(finalizable := true);
      return;
    }
    if |req.eligible| > 0 {
      var maxPossibleApprovals := |req.eligible| - rejections;
      if maxPossibleApprovals < req.required {
        state := state.(rejected := true, finalizable := true);
      }
    }
  }

  lemma NothingCounted()
    ensures Counted([]) == [] && Voters([]) == {} && Approvals([]) == 0 && Rejections([]) == 0 && LatestVoteAt([]) == 0
  {
  }

  lemma CountedStep(votes: seq<Vote>, i: nat)
    requires i < |votes|
    ensures Counted(votes[..i + 1])
         == if votes[i].voter == "" || votes[i].voter in Voters(Counted(votes[..i])) then Counted(votes[..i])
            else Counted(votes[..i]) + [votes[i]]
  {
    assert votes[..i + 1][..i] == votes[..i];
  }

  /** For distinct, named voters the two computations agree on counts, on what is missing
      and on the decision, except in two situations: no one is listed as eligible and the
      vote is rejecting, or fewer are eligible than required and no one has rejected yet.
      They agree on when the last vote was cast exactly when the last in the list is also the
      latest, and not before time 0. Only the ledger's says whether the entry is closed. */
  lemma QuorumsAgree(req: Requirement, votes: seq<Vote>, closed: bool)
    requires DistinctVoters(votes) && forall v :: v in votes ==> v.voter != ""
    ensures var b, c := BuiltQuorum(None, Some(req), votes, closed), ComputedQuorum(req, votes);
      && b.approvals == c.approvals && b.rejections == c.rejections && b.missing == c.missing
      && b.quorumKey == c.quorumKey && b.required == c.required && b.eligible == c.eligible
      && (b.rejected == c.rejected && b.finalizable == c.finalizable <==>
          c.approvals >= req.required
          || (if |req.eligible| == 0 then c.rejections == 0 else c.rejections > 0 || req.required <= |req.eligible|))
      && (b.lastVoteAt == c.lastVoteAt <==>
          votes == [] || (votes[|votes| - 1].votedAt >= 0 && forall v :: v in votes ==> v.votedAt <= votes[|votes| - 1].votedAt))
      && b.finalized == closed && !c.finalized
  {
    AllCounted(votes);
    EveryVoteCounts(votes);
    LatestIs(votes);
    hide Counted, Approvals, Rejections, LatestVoteAt;
  }

  /** The latest vote, or 0 when none is later than that. */
  lemma {:induction false} LatestIs(votes: seq<Vote>)
    ensures LatestVoteAt(votes) >= 0 && forall v :: v in votes ==> v.votedAt <= LatestVoteAt(votes)
    ensures LatestVoteAt(votes) == 0 || exists v :: v in votes && v.votedAt == LatestVoteAt(votes)
  {
    if votes != [] {
      var front, last := votes[..|votes| - 1], votes[|votes| - 1];
      LatestIs(front);
      assert votes == front + [last];
    }
  }

  /** Each exception, at one ballot: an electorate nobody listed, where the ledger refuses and
      the other waits; and a requirement beyond the electorate, where it is the other way round. */
  lemma QuorumsDisagree(v: Vote)
    requires !v.approved && v.voter != ""
    ensures var unlisted := Requirement(QuorumVote, "k", 1, [], true);
      BuiltQuorum(None, Some(unlisted), [v], false).rejected && !ComputedQuorum(unlisted, [v]).rejected
    ensures var beyond := Requirement(QuorumVote, "k", 2, ["a"], true);
      !BuiltQuorum(None, Some(beyond), [], false).rejected && ComputedQuorum(beyond, []).rejected
  {
    AllCounted([v]);
    assert [v][..0] == [];
  }
}
