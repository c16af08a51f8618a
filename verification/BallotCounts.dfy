/** The two quorum computations on any ballots at all, repeated, unnamed or beyond the
    electorate (ledger.go, buildQuorumState; consensus.go, computeQuorumState). */
module BallotCounts {
  import opened Text
  import opened Quorum

  // ---- consensus.go: each named voter's first vote ----

  /** The vote of somebody with a name who has not voted before. */
  ghost predicate Counts(votes: seq<Vote>, i: nat) {
    i < |votes| && votes[i].voter != "" && forall j :: 0 <= j < i ==> votes[j].voter != votes[i].voter
  }

  ghost function Counting(votes: seq<Vote>): set<nat> {
    set i: nat | i < |votes| && Counts(votes, i)
  }

  ghost function CountingFor(votes: seq<Vote>, approved: bool): set<nat> {
    set i: nat | i < |votes| && Counts(votes, i) && votes[i].approved == approved
  }

  lemma CountsBefore(votes: seq<Vote>, v: Vote)
    ensures forall i: nat :: i < |votes| ==> (Counts(votes + [v], i) <==> Counts(votes, i))
    ensures Counts(votes + [v], |votes|) <==> v.voter != "" && forall j :: 0 <= j < |votes| ==> votes[j].voter != v.voter
  {
    var more := votes + [v];
    assert forall j :: 0 <= j < |votes| ==> more[j] == votes[j];
  }

  lemma OneMoreCounting(votes: seq<Vote>, v: Vote, approved: bool)
    ensures |CountingFor(votes + [v], approved)|
         == |CountingFor(votes, approved)| + if Counts(votes + [v], |votes|) && v.approved == approved then 1 else 0
  {
    CountsBefore(votes, v);
    var more, few := CountingFor(votes + [v], approved), CountingFor(votes, approved);
    hide Counts;
    assert forall i: nat :: i < |votes| ==> (votes + [v])[i] == votes[i];
    if Counts(votes + [v], |votes|) && v.approved == approved {
      assert more == few + {|votes|};
    } else {
      assert more == few;
    }
  }

  lemma {:induction false} CountedVoters(votes: seq<Vote>, voter: string)
    ensures voter in Voters(Counted(votes)) <==> voter != "" && exists j :: 0 <= j < |votes| && votes[j].voter == voter
  {
    if votes != [] {
      var front, v := votes[..|votes| - 1], votes[|votes| - 1];
      CountedVoters(front, voter);
      CountedVoters(front, v.voter);
      assert forall j :: 0 <= j < |front| ==> front[j] == votes[j];
    }
  }

  lemma {:induction false} CountedIsCounting(votes: seq<Vote>)
    ensures Approvals(Counted(votes)) == |CountingFor(votes, true)|
    ensures Rejections(Counted(votes)) == |CountingFor(votes, false)|
  {
    hide Approvals, Rejections, CountingFor, Voters, Counts;
    if votes == [] {
      NothingCounts();
    } else {
      var front, v := votes[..|votes| - 1], votes[|votes| - 1];
      assert votes == front + [v];
      CountedIsCounting(front);
      CountsBefore(front, v);
      OneMoreCounting(front, v, true);
      OneMoreCounting(front, v, false);
      CountedVoters(front, v.voter);
      OneMoreVote(Counted(front), v);
    }
  }

  lemma NothingCounts()
    ensures CountingFor([], true) == {} && CountingFor([], false) == {} && Approvals([]) == 0 && Rejections([]) == 0
  {
  }

  /** The latest of the counted votes' times, 0 before any. */
  ghost predicate IsLatest(votes: seq<Vote>, t: int) {
    && t >= 0 && (forall i: nat :: i < |votes| && Counts(votes, i) ==> votes[i].votedAt <= t)
    && (t == 0 || exists i: nat :: i < |votes| && Counts(votes, i) && votes[i].votedAt == t)
  }

  lemma LatestStep(front: seq<Vote>, v: Vote, t: int)
    requires IsLatest(front, t)
    ensures IsLatest(front + [v], if Counts(front + [v], |front|) && v.votedAt > t then v.votedAt else t)
  {
    CountsBefore(front, v);
    hide Counts;
    var votes := front + [v];
    assert forall i: nat :: i < |front| ==> votes[i] == front[i];
    if t != 0 {
      var i: nat :| i < |front| && Counts(front, i) && front[i].votedAt == t;
      assert Counts(votes, i) && votes[i].votedAt == t;
    }
  }

  lemma LatestOfOneMore(votes: seq<Vote>)
    requires votes != []
    ensures var front, v := votes[..|votes| - 1], votes[|votes| - 1];
      var t := LatestVoteAt(Counted(front));
      LatestVoteAt(Counted(votes)) == if Counts(front + [v], |front|) && v.votedAt > t then v.votedAt else t
  {
    var front, v := votes[..|votes| - 1], votes[|votes| - 1];
    CountsBefore(front, v);
    CountedVoters(front, v.voter);
    OneMoreVote(Counted(front), v);
    hide LatestVoteAt, Voters;
  }

  lemma {:induction false} LatestIsLatest(votes: seq<Vote>)
    ensures IsLatest(votes, LatestVoteAt(Counted(votes)))
  {
    if votes != [] {
      hide Counts, Counted, LatestVoteAt, IsLatest;
      var front, v := votes[..|votes| - 1], votes[|votes| - 1];
      assert votes == front + [v];
      LatestIsLatest(front);
      LatestOfOneMore(votes);
      LatestStep(front, v, LatestVoteAt(Counted(front)));
    }
  }

  /** The consensus module's quorum of any ballots: every named voter's first vote counts, an
      approval or a rejection each; it is refused once those who have not rejected are too few. */
  lemma ComputedMeaning(req: Requirement, votes: seq<Vote>)
    ensures var q, n := ComputedQuorum(req, votes), |req.eligible|;
      && q.approvals == |CountingFor(votes, true)| && q.rejections == |CountingFor(votes, false)|
      && q.required == req.required && q.eligible == req.eligible && q.quorumKey == req.quorumKey
      && (q.rejected <==> q.approvals < req.required && n > 0 && n - q.rejections < req.required)
      && (q.finalizable <==> q.approvals >= req.required || q.rejected) && !q.finalized
      && q.missing >= 0 && (q.missing == 0 <==> q.approvals >= req.required) && (q.missing > 0 ==> q.approvals + q.missing == req.required)
      && IsLatest(votes, q.lastVoteAt)
  {
    hide Approvals, Rejections, CountingFor, Counted, LatestVoteAt, IsLatest;
    CountedIsCounting(votes);
    LatestIsLatest(votes);
  }

  // ---- ledger.go: every vote as it came ----

  function AllFor(n: nat): (votes: seq<Vote>)
    ensures |votes| == n && forall i :: 0 <= i < n ==> votes[i].approved
  {
    seq(n, _ => Vote("", "", true, "", 0))
  }

  lemma {:induction false} ApprovalsOfConcat(a: seq<Vote>, b: seq<Vote>)
    ensures Approvals(a + b) == Approvals(a) + Approvals(b)
    decreases |b|
  {
    if b == [] {
      assert a + b == a;
    } else {
      ApprovalsOfConcat(a, b[..|b| - 1]);
      assert (a + b)[..|a + b| - 1] == a + b[..|b| - 1];
    }
  }

  lemma {:induction false} AllApprove(votes: seq<Vote>)
    requires forall i :: 0 <= i < |votes| ==> votes[i].approved
    ensures Approvals(votes) == |votes|
  {
    if votes != [] {
      AllApprove(votes[..|votes| - 1]);
    }
  }

  /** Early rejection is exact: somebody has rejected, and whoever of the electorate is still to
      vote, the approvals required cannot be reached any more. */
  lemma EarlyRejectionMeaning(required: int, eligible: nat, votes: seq<Vote>)
    ensures RejectedEarly(required, eligible, Approvals(votes), Rejections(votes)) <==>
      Rejections(votes) > 0
      && forall more: seq<Vote> :: more == [] || |votes| + |more| <= eligible ==> Approvals(votes + more) < required
  {
    hide Approvals, Rejections;
    EveryVoteCounts(votes);
    var left := Remaining(eligible, |votes|);
    forall more: seq<Vote> | more == [] || |votes| + |more| <= eligible
      ensures Approvals(votes + more) <= Approvals(votes) + left
    {
      ApprovalsOfConcat(votes, more);
      NoneApprove();
    }
    ApprovalsOfConcat(votes, AllFor(left));
    AllApprove(AllFor(left));
    assert AllFor(left) == [] || |votes| + |AllFor(left)| <= eligible;
  }

  lemma NoneApprove()
    ensures Approvals([]) == 0
  {
  }

  /** The ledger's quorum of any ballots. */
  lemma BuiltMeaning(stored: Option<QuorumState>, req: Option<Requirement>, votes: seq<Vote>, closed: bool)
    ensures var q := BuiltQuorum(stored, req, votes, closed);
      && (req.Some? ==> q.required == req.value.required && q.eligible == req.value.eligible && q.quorumKey == req.value.quorumKey)
      && (req == None && stored.Some? ==>
            q.required == stored.value.required && q.eligible == stored.value.eligible && q.quorumKey == stored.value.quorumKey)
      && (req == None && stored == None ==> q.required == 0 && q.eligible == [] && q.quorumKey == "")
      && q.approvals == Approvals(votes) && q.rejections == |votes| - Approvals(votes) && q.finalized == closed
      && (q.rejected <==>
            q.rejections > 0
            && forall more: seq<Vote> :: more == [] || |votes| + |more| <= |q.eligible| ==> Approvals(votes + more) < q.required)
      && (q.finalizable <==> q.approvals >= q.required || q.rejected)
      && q.missing >= 0 && (q.missing == 0 <==> q.approvals >= q.required) && (q.missing > 0 ==> q.approvals + q.missing == q.required)
      && (votes != [] ==> q.lastVoteAt == votes[|votes| - 1].votedAt)
  {
    hide Approvals, Rejections;
    EveryVoteCounts(votes);
    var q := BuiltQuorum(stored, req, votes, closed);
    EarlyRejectionMeaning(q.required, |q.eligible|, votes);
  }
}
