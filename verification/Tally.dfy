/** The fate of an auto-finalised proposal as its votes come in one by one (ledger.go, Vote). */
module Tally {
  import opened Quorum

  datatype Fate = Open | Final | Dropped

  /** Decided at the first vote that settles it; later votes find no pending entry. */
  function Decide(required: int, eligible: int, votes: seq<Vote>): Fate {
    if votes == [] then Open
    else
      var before := Decide(required, eligible, votes[..|votes| - 1]);
      if before != Open then before
      else FateNow(required, eligible, Approvals(votes), Rejections(votes))
  }

  function FateNow(required: int, eligible: int, approvals: int, rejections: int): Fate {
    if RejectedEarly(required, eligible, approvals, rejections) then Dropped
    else if approvals >= required then Final
    else Open
  }

  lemma OneMoreFate(required: int, eligible: int, votes: seq<Vote>, v: Vote)
    ensures Decide(required, eligible, votes + [v])
         == if Decide(required, eligible, votes) != Open then Decide(required, eligible, votes)
            else FateNow(required, eligible, Approvals(votes + [v]), Rejections(votes + [v]))
  {
    assert (votes + [v])[..|votes|] == votes;
  }

  /** The votes up to and including the one that decides; all of them while none has. */
  function Deciding(required: int, eligible: int, votes: seq<Vote>): (r: seq<Vote>)
    ensures r <= votes
  {
    if votes == [] || Decide(required, eligible, votes[..|votes| - 1]) == Open then votes
    else Deciding(required, eligible, votes[..|votes| - 1])
  }

  lemma OneMoreDeciding(required: int, eligible: int, votes: seq<Vote>, v: Vote)
    ensures Deciding(required, eligible, votes + [v])
         == if Decide(required, eligible, votes) == Open then votes + [v] else Deciding(required, eligible, votes)
  {
    assert (votes + [v])[..|votes|] == votes;
  }

  /** It is the shortest deciding prefix: it decides, alike, and nothing shorter does. */
  lemma {:induction false} DecidingIsShortest(required: int, eligible: int, votes: seq<Vote>)
    requires Decide(required, eligible, votes) != Open
    ensures var d := Deciding(required, eligible, votes);
      && d != [] && Decide(required, eligible, d) == Decide(required, eligible, votes)
      && forall k :: 0 <= k < |d| ==> Decide(required, eligible, votes[..k]) == Open
    decreases |votes|
  {
    hide Approvals, Rejections;
    var front := votes[..|votes| - 1];
    if Decide(required, eligible, front) == Open {
      forall k | 0 <= k < |votes| ensures Decide(required, eligible, votes[..k]) == Open {
        OpenBefore(required, eligible, votes, k);
      }
    } else {
      DecidingIsShortest(required, eligible, front);
      var d := Deciding(required, eligible, front);
      forall k | 0 <= k < |d| ensures Decide(required, eligible, votes[..k]) == Open {
        assert votes[..k] == front[..k];
      }
    }
  }

  lemma OpenBefore(required: int, eligible: int, votes: seq<Vote>, k: nat)
    requires k < |votes| && Decide(required, eligible, votes[..|votes| - 1]) == Open
    ensures Decide(required, eligible, votes[..k]) == Open
  {
    var front := votes[..|votes| - 1];
    assert front == votes[..k] + front[k..];
    hide Decide;
    if Decide(required, eligible, votes[..k]) != Open {
      DecidedStays(required, eligible, votes[..k], front[k..]);
    }
  }

  /** Both the approvals for acceptance and the rejections for refusal are among the votes. */
  predicate OrderSensitive(required: int, eligible: int, approvals: int, rejections: int) {
    required >= 1 && approvals >= required && rejections >= 1 && rejections > eligible - required
  }

  /** Where order cannot matter the fate is read off the two counts. */
  function FateByCounts(required: int, eligible: int, approvals: int, rejections: int): Fate {
    if approvals >= required then (if required <= 0 && approvals + rejections == 0 then Open else Final)
    else if rejections >= 1 && rejections > eligible - required then Dropped
    else Open
  }

  lemma FrontCounts(votes: seq<Vote>)
    requires votes != []
    ensures var f := votes[..|votes| - 1];
      && Approvals(votes) == Approvals(f) + (if votes[|votes| - 1].approved then 1 else 0)
      && Rejections(votes) == Rejections(f) + (if votes[|votes| - 1].approved then 0 else 1)
  {
  }

  /** The walk over prefixes and the counts agree whenever order cannot matter. */
  lemma {:induction false} FateIsByCounts(required: int, eligible: nat, votes: seq<Vote>)
    requires !OrderSensitive(required, eligible, Approvals(votes), Rejections(votes))
    ensures Decide(required, eligible, votes) == FateByCounts(required, eligible, Approvals(votes), Rejections(votes))
  {
    if votes == [] {
    } else {
      FrontCounts(votes);
      EveryVoteCounts(votes);
      FateIsByCounts(required, eligible, votes[..|votes| - 1]);
      hide Approvals, Rejections;
    }
  }

  /** Vote order never changes the fate unless the votes are order sensitive. */
  lemma OrderIrrelevant(required: int, eligible: nat, vs: seq<Vote>, ws: seq<Vote>)
    requires multiset(vs) == multiset(ws)
    requires !OrderSensitive(required, eligible, Approvals(vs), Rejections(vs))
    ensures Decide(required, eligible, vs) == Decide(required, eligible, ws)
  {
    hide Decide, Approvals, Rejections, OrderSensitive;
    CountsByMultiset(vs, ws);
    FateIsByCounts(required, eligible, vs);
    FateIsByCounts(required, eligible, ws);
  }

  /** No more votes than eligible voters: never order sensitive. */
  lemma WithinBallotInsensitive(required: int, eligible: nat, votes: seq<Vote>)
    requires |votes| <= eligible
    ensures !OrderSensitive(required, eligible, Approvals(votes), Rejections(votes))
  {
    EveryVoteCounts(votes);
    hide Approvals, Rejections;
  }

  /** A full ballot decides, and accepts exactly on enough approvals. */
  lemma FullBallotDecides(required: int, eligible: nat, votes: seq<Vote>)
    requires 1 <= required <= eligible && |votes| == eligible
    ensures Decide(required, eligible, votes) == if Approvals(votes) >= required then Final else Dropped
  {
    WithinBallotInsensitive(required, eligible, votes);
    FateIsByCounts(required, eligible, votes);
    EveryVoteCounts(votes);
    hide Approvals, Rejections, Decide;
  }

  /** A requirement beyond the electorate is stuck open as long as everyone approves. */
  lemma ImpossibleRequirementStaysOpen(required: int, eligible: nat, votes: seq<Vote>)
    requires eligible < required && |votes| <= eligible
    ensures Decide(required, eligible, votes) == Open <==> Rejections(votes) == 0
  {
    WithinBallotInsensitive(required, eligible, votes);
    FateIsByCounts(required, eligible, votes);
    EveryVoteCounts(votes);
    hide Approvals, Rejections, Decide;
  }

  // ---- and when order does matter ----

  lemma {:induction false} DecidedStays(required: int, eligible: int, vs: seq<Vote>, ws: seq<Vote>)
    requires Decide(required, eligible, vs) != Open
    ensures Decide(required, eligible, vs + ws) == Decide(required, eligible, vs)
    decreases |ws|
  {
    hide Approvals, Rejections;
    if ws == [] {
      assert vs + ws == vs;
    } else {
      DecidedStays(required, eligible, vs, ws[..|ws| - 1]);
      assert (vs + ws)[..|vs + ws| - 1] == vs + ws[..|ws| - 1];
    }
  }

  /** Every vote counted towards the fate, whatever the order, exactly when the counts are
      not order sensitive. */
  lemma OrderSensitivityIsExact(required: int, eligible: nat, votes: seq<Vote>)
    ensures (forall ws :: multiset(ws) == multiset(votes) ==>
              Decide(required, eligible, ws) == Decide(required, eligible, votes))
      <==> !OrderSensitive(required, eligible, Approvals(votes), Rejections(votes))
  {
    hide Decide, Approvals, Rejections, OrderSensitive;
    if OrderSensitive(required, eligible, Approvals(votes), Rejections(votes)) {
      var f, l := ApprovalsFirst(votes), RejectionsFirst(votes);
      OppositeFates(required, eligible, votes);
      assert multiset(f) == multiset(votes) && multiset(l) == multiset(votes);
    } else {
      forall ws | multiset(ws) == multiset(votes)
        ensures Decide(required, eligible, ws) == Decide(required, eligible, votes)
      {
        OrderIrrelevant(required, eligible, votes, ws);
      }
    }
  }

  /** One seat, one approval required, one approval and one rejection cast by two voters: the
      first to vote decides. The second is not eligible, which voting does not ask. */
  lemma FirstVoteWins(approve: Vote, reject: Vote)
    requires approve.approved && !reject.approved
    ensures OrderSensitive(1, 1, Approvals([approve, reject]), Rejections([approve, reject]))
    ensures Decide(1, 1, [approve, reject]) == Final && Decide(1, 1, [reject, approve]) == Dropped
    ensures multiset([approve, reject]) == multiset([reject, approve])
  {
    hide Approvals, Rejections, Decide;
    NoVotes(1, 1);
    OneMoreVote([], approve);
    OneMoreVote([], reject);
    OneMoreVote([approve], reject);
    OneMoreVote([reject], approve);
    OneMoreFate(1, 1, [], approve);
    OneMoreFate(1, 1, [], reject);
    OneMoreFate(1, 1, [approve], reject);
    OneMoreFate(1, 1, [reject], approve);
    assert [] + [approve] == [approve] && [] + [reject] == [reject];
    assert [approve] + [reject] == [approve, reject] && [reject] + [approve] == [reject, approve];
  }

  lemma NoVotes(required: int, eligible: int)
    ensures Decide(required, eligible, []) == Open && Approvals([]) == 0 && Rejections([]) == 0
  {
  }

  function Only(votes: seq<Vote>, approved: bool): seq<Vote> {
    if votes == [] then []
    else
      var v := votes[|votes| - 1];
      var rest := Only(votes[..|votes| - 1], approved);
      if v.approved == approved then rest + [v] else rest
  }

  function ApprovalsFirst(votes: seq<Vote>): seq<Vote> {
    Only(votes, true) + Only(votes, false)
  }

  function RejectionsFirst(votes: seq<Vote>): seq<Vote> {
    Only(votes, false) + Only(votes, true)
  }

  lemma {:induction false} OnlySplits(votes: seq<Vote>)
    ensures multiset(Only(votes, true)) + multiset(Only(votes, false)) == multiset(votes)
  {
    if votes != [] {
      var front, v := votes[..|votes| - 1], votes[|votes| - 1];
      OnlySplits(front);
      LastOnly(votes, true);
      LastOnly(votes, false);
      assert votes == front + [v];
      hide Only;
      assert multiset(votes) == multiset(front) + multiset([v]);
    }
  }

  lemma LastOnly(votes: seq<Vote>, approved: bool)
    requires votes != []
    ensures var v := votes[|votes| - 1];
      multiset(Only(votes, approved))
      == multiset(Only(votes[..|votes| - 1], approved)) + if v.approved == approved then multiset([v]) else multiset{}
  {
  }

  lemma {:induction false} OnlyCounts(votes: seq<Vote>, approved: bool)
    ensures Approvals(Only(votes, approved)) == if approved then Approvals(votes) else 0
    ensures Rejections(Only(votes, approved)) == if approved then 0 else Rejections(votes)
  {
    if votes != [] {
      OnlyCounts(votes[..|votes| - 1], approved);
      var v := votes[|votes| - 1];
      OneMoreVote(Only(votes[..|votes| - 1], approved), v);
      FrontCounts(votes);
      hide Approvals, Rejections;
    }
  }

  lemma OppositeFates(required: int, eligible: nat, votes: seq<Vote>)
    requires OrderSensitive(required, eligible, Approvals(votes), Rejections(votes))
    ensures multiset(ApprovalsFirst(votes)) == multiset(votes) == multiset(RejectionsFirst(votes))
    ensures Decide(required, eligible, ApprovalsFirst(votes)) == Final
    ensures Decide(required, eligible, RejectionsFirst(votes)) == Dropped
  {
    hide Decide, Approvals, Rejections, Only;
    OnlySplits(votes);
    OnlyCounts(votes, true);
    OnlyCounts(votes, false);
    FateIsByCounts(required, eligible, Only(votes, true));
    FateIsByCounts(required, eligible, Only(votes, false));
    DecidedStays(required, eligible, Only(votes, true), Only(votes, false));
    DecidedStays(required, eligible, Only(votes, false), Only(votes, true));
  }
}
