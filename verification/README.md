# Agency core: model and proofs

A Dafny model of the algorithmic core of `internal/agency`: how the system attributes a
verdict to causal nodes, disputes it, attests and compares a cohort of verdicts, votes it
into a ledger, and puts it into text and onto the wire. `dafny verify dfyconfig.toml`
checks everything.

Where the program works by changing things step by step, so does the model: the ledger
service and the buffered reader are classes, the Shapley accumulators, the shuffle and the
pairing flags are arrays, and the loops are loops. Each such method is proved equal to a
function of its inputs or of the old state, and the theorems are about those functions.

The parts, and the files that hold them:

- **Shapley attribution** (`Sums`, `Masks`, `Shapley`, `Sampling`, `Arrivals`, `Attribution`,
  `Ranking`): the efficiency axiom by double counting over all subsets, for any number of
  players and any value function; the classical axioms; sampling as an unbiased estimate;
  signs, bounds and ranking of what is reported.
- **Ledger and voting** (`Quorum`, `BallotCounts`, `Tally`, `LedgerTypes`, `Snapshots`,
  `SnapshotFields`, `Ledger`, `LedgerRuns`, `LedgerFates`, `LedgerAnswers`, `LedgerWriters`): the
  state machine, its invariants over whole interleaved runs, conservation of proposals,
  confluence over vote orders, what it answers, and replay field by field.
- **Speculative cohort** (`SortedSets`, `Tallies`, `Leaves`, `SummaryWords`, `Merkle`, `Converge`,
  `Divergence`, `CohortCounts`, `Dyad`, `DyadRoundTrip`, `DeltaContents`, `DyadPairs`,
  `DyadMatching`, `Ratios`, `Reconcile`, `Faithfulness`, `Support`, `Bundle`, `Unanimity`): what
  Merkle roots determine, the convergence gate and its lossless report, delta compression as a
  greedy maximal matching with an inverse, and reconciliation counted peer by peer.
- **Pearl loop, disputes, review** (`Pearl`, `RoleSums`, `Dispute`, `ClaimEffects`,
  `Counterfactuals`, `Reviewer`, `ReviewRules`): plans and attributions in plain sums of weights,
  the original run and the counterfactual replay side by side, and what review guarantees.
- **Text forms** (`ChainText`, `Resp`): the causal chain and Redis serialization protocol
  (RESP) arrays and bulk strings, with their round trips under partial reads.
- **Shared** (`Sorting`, `Text`, `Causal`).

## What the proofs found

Where the code and its own comments or intent disagree, the model follows the code. Each
point is proved. Where something fails on some inputs only, one such input is given and
the condition is exact; the others hold of every input.

- `SyncCausalChain` is documented as idempotent; it is so exactly when there was a graph, no
  chain, or a chain of canonical entries in bucket order (`ChainText.SyncIdempotent`,
  `ChainText.CanonicalIsText`, `ChainText.SyncTwiceMoves`). Graphs keep their text under the
  same condition on what their nodes print (`ChainText.GraphRoundTrip`,
  `ChainText.GraphTextMoves`).
- Two attestations are said to share a root iff the graphs have identical structure. Any graph
  of odd size above one shares one with its extension by one of its own nodes
  (`Merkle.SomeRepeatIsHidden`), so nodes a, b and c with one of a, b, c, a, or a, b, c, b, or a, b, c, c
  (`Merkle.AbcHidesARepeat`; the order of the hashes says which). Exactly which graphs share a
  root is `Merkle.SharedRootOfGraphs`: repeats of the last leaf are the only ambiguity, and none
  remains once leaf counts agree or leaves are distinct. And a parent can pass for an atom reference
  (`Merkle.ParentPassesForReference`): a leaf determines the run of cells its lists are joined
  to (`Leaves.TailMeaning`, `Leaves.ListedIsTokens`), and the lists themselves exactly when
  their counts are known (`Leaves.ListsDeterminedByCounts`).
- Weights within a millionth of each other are said to have one canonical form; they have it
  exactly when they round to the same millionth (`Leaves.SameWeightText`,
  `Leaves.CloseWeightsReadDifferently`).
- The default convergence threshold is described as two thirds; 33 of 50 pass
  (`Divergence.DefaultIsNotTwoThirds`).
- When the consensus is the empty graph no divergence is reported, though every dissenter
  differs (`Divergence.DissentersSurviveTheReport`; a cohort is in
  `Divergence.EmptyConsensusHidesDissent`).
- A dyad delta is said to restore the sibling. It restores the root except when a mutation
  clears the role or summary or changes the lists, and keeps the base's headline throughout
  (`DyadRoundTrip.HydrateInvertsDelta`, `DyadRoundTrip.ClearedSummaryIsLost`).
- The headline "drifted" cannot occur (`Bundle.DriftIsNeverAnnounced`), and drift never causes
  a drifted status under the default thresholds (`Faithfulness.DriftNeverFires`).
- Voting does not check eligibility, so with more voters than are eligible the order of votes
  can decide under automatic finalisation; exactly when is `Tally.OrderSensitivityIsExact`, the
  smallest ballot `Tally.FirstVoteWins`. By a call it never does (`LedgerFates.CallsAgree`).
- The two quorum computations disagree on some ballots (`Quorum.QuorumsDisagree`);
  `Quorum.QuorumsAgree` says on which.
- The missing-confounder probe is upheld on every load in [-0.1, 0.6), where it flips the
  block. It is also raised on plans already blocked, and there upheld only when the added load
  costs 0.15 of confidence (`Reviewer.ConfounderProbeRuling`); very strong evidence makes it
  fail (`Reviewer.ConfounderProbeNotUpheld`). Negative loads below -0.1 are settled by
  `Reviewer.ConfounderProbeRulingBelow`.
- The mislabel probe is never raised on non-negative weights (`Reviewer.MislabelNeverProbed`),
  but exactly on evidence of negative weight (`Reviewer.MislabelProbesNegativeEvidence`).
- The reader takes a bulk string with a single Read, which may return less than was asked for.
  A frame makes the round trip exactly when each of its texts arrives in one Read
  (`Resp.FrameRoundTrip`); otherwise the subscription can end on it, as on a payload xy of
  which one byte comes first (`Resp.OneByteFirst`; in general `Resp.CutShortSilences`). And a
  bulk string announced as missing, length -1, stops the reader at run time
  (`Resp.MissingIsNotEmpty`).
- Plans and attributions are said to be consistent. Without interventions they are: the
  attributions share out exactly the projected confidence over 1/2
  (`RoleSums.PlanAgreesWithAttributions`).
- A role the program does not know is printed among the outcomes (`ChainText.FlatMeaning`).

## Conventions

- Hashes are symbolic: a digest is the tree of what was hashed. The order of digests stands
  for the order of their hexadecimal text; nothing but the proof that it is a total order
  depends on which one it is.
- Floating point is modelled by reals, the logistic function by any strictly increasing
  function into (0, 1) with value 1/2 at 0.
- The clock, generated identifiers, the random stream, the parsing of decimal fractions, the
  content hash in a hydrated node's name and the hash in a derived cohort name are parameters.
- Library sorting is stable insertion sort, proved to be what its callers may assume.
- Text is a sequence of characters with the ASCII tables for case and white space.

## Model

| member | source | states |
|---|---|---|
| Attribution.ShapleyValue | internal/agency/shapley.go:114-123 | the loop over a coalition mask computes the squashed sum of the members' contributions |
| Attribution.FactorialTable | internal/agency/shapley.go:146-171 | the factorial table that weighs the subsets; every index the double loop uses is in it |
| Attribution.WeightedMarginal | internal/agency/shapley.go:146-171 | the inner loop body: one subset's weighted marginal |
| Attribution.AddCoalition | internal/agency/shapley.go:146-171 | what one coalition mask adds to the phi array, in place, player by player |
| Attribution.ExactShapley | internal/agency/shapley.go:146-171 | the subset-enumerating double loop fills the array with the Shapley values of the game |
| Attribution.AddRound | internal/agency/shapley.go:176-200 | one permutation's telescoping pass over the array, mask and previous score |
| Attribution.SampledShapley | internal/agency/shapley.go:176-200 | the sampling loops compute the mean marginals over the shuffled orders |
| Shapley.Efficiency | internal/agency/shapley.go:146-171 | for any number of players and any value function the exact values sum to v(all) - v(none), by double counting over all subsets |
| Shapley.ValueByCoalition | internal/agency/shapley.go:146-171 | a player's value regrouped by coalition instead of by marginal |
| Shapley.SumByCoalition | internal/agency/shapley.go:146-171 | the double sum over players and subsets exchanged |
| Shapley.SharesBalance | internal/agency/shapley.go:146-171 | the factorial weights s!(n-1-s)!/n! balance: each inner coalition is counted as often with as against |
| Shapley.BalancedIsEfficient | internal/agency/shapley.go:146-171 | any balanced weighting is efficient |
| Shapley.PhiMonotone | internal/agency/shapley.go:146-171 | larger marginals everywhere give a larger value |
| Shapley.NullPlayer | internal/agency/shapley.go:146-171 | a player who never changes the score gets 0 |
| Shapley.DictatorGetsAll | internal/agency/shapley.go:146-171 | a player who alone decides gets exactly everything: the subset weights sum to 1 |
| Shapley.PhiWithinMarginals | internal/agency/shapley.go:146-171 | a value lies between the least and the greatest marginal |
| Shapley.RankRespectsMarginals | internal/agency/shapley.go:146-171 | a player whose marginals dominate another's is valued at least as high, and higher if it alone is worth more |
| Sampling.Shuffle | internal/agency/shapley.go:176-200 | the in-place shuffle is the functional one, draw for draw |
| Sampling.ShuffleDownKeepsOrder | internal/agency/shapley.go:176-200 | however the draws fall, a permutation stays a permutation |
| Sampling.EveryPlayerArrives | internal/agency/shapley.go:176-200 | every player occurs at exactly one position of the order |
| Arrivals.ShuffleReaches | internal/agency/shapley.go:176-200 | from any order every order can be shuffled |
| Arrivals.ShuffleIsFair | internal/agency/shapley.go:176-200 | by only one sequence of swaps, so equally likely draws make equally likely orders |
| Arrivals.OrderPhiAt | internal/agency/shapley.go:176-200 | in one order a player gets what the coalition of exactly those before it gains by it |
| Sampling.OrderEfficiency | internal/agency/shapley.go:176-200 | one order's marginals telescope to v(all) - v(none) |
| Sampling.SampledEfficiency | internal/agency/shapley.go:176-200 | the sampled values are efficient for every stream of draws |
| Sampling.SampledWithinMarginals | internal/agency/shapley.go:176-200 | a sampled value lies between the extreme marginals |
| Sampling.SampledStrictlyWithin | internal/agency/shapley.go:176-200 | strictly, when the marginals do |
| Sampling.SumOfMeans | internal/agency/shapley.go:176-200 | averaging the rounds player by player and summing is summing each round and averaging, which carries efficiency from one order to the sample |
| Arrivals.WorthSplits | internal/agency/shapley.go:146-200 | what a player gains over all orders of a coalition, split by who arrives last |
| Arrivals.SamplingIsUnbiased | internal/agency/shapley.go:176-200 | the estimator is unbiased: summed over the n! shuffles of any order, a player's gains are n! times its exact Shapley value |
| Arrivals.RoundsAreUnbiased | internal/agency/shapley.go:176-200 | and so is every round of the sampling loop, each starting from the order the one before left |
| Masks.SumByMembership | internal/agency/shapley.go:146-171 | over the n players, a weight for each member and another for each outsider add up by the number of members of the mask |
| Masks.SplitOnBit | internal/agency/shapley.go:146-171 | summing over subsets with and without a player covers all masks once |
| Masks.AddedInRange | internal/agency/shapley.go:146-171 | setting a bit keeps a mask among the 2^n, so no index leaves the table |
| Ranking.PhiEfficiency | internal/agency/shapley.go:49-107 | with the program's value function the values sum to sigma(total contribution) - 1/2 |
| Ranking.PhiSignAndBound | internal/agency/shapley.go:114-171 | a value has the sign of its node's contribution and is below 1 in size |
| Ranking.PhiFollowsContribution | internal/agency/shapley.go:114-171 | exact values order the players exactly as their own contributions do, ties included |
| Ranking.SelectPlayers | internal/agency/shapley.go:49-107 | every node but the outcomes, in listing order |
| Ranking.AttributeRows | internal/agency/shapley.go:49-107 | exact up to the limit, sampled above it, one row per player |
| Ranking.NumberRows | internal/agency/shapley.go:49-107 | ranks are written in place from 1 |
| Ranking.AttributeNecessity | internal/agency/shapley.go:49-107 | the whole attribution is the specified function of the graph |
| Ranking.AttributionEfficiency | internal/agency/shapley.go:49-107 | the attributions handed out, exact or sampled, ranked or not, sum to the graph's confidence over the empty coalition's |
| Ranking.AttributionRanked | internal/agency/shapley.go:49-107 | ranks count from 1, magnitudes never grow, ties go by identifier |
| Ranking.AttributionOfPlayer | internal/agency/shapley.go:49-107 | each row belongs to one player and carries its value |
| Ranking.AttributionSigns | internal/agency/shapley.go:114-200 | on non-negative weights the role fixes the sign: supporting roles >= 0, confounders <= 0, others 0, all below 1 in size |
| RoleSums.CoalitionValue | internal/agency/shapley.go:109-142 | the value of every coalition, whole or partial, is the squashed sum of its members' weights at 1, 0.5, -2 and 0.5 for evidence, interventions, confounders and unknowns |
| RoleSums.AttributionsSum | internal/agency/shapley.go:49-142 | for up to 64 players the attributions sum to the squashed plain role sums of the graph, each role at its rate, over the empty coalition's |
| RoleSums.PlanAgreesWithAttributions | internal/agency/shapley.go:109-142 | the agreement the comments claim: without interventions the attributions share out exactly the confidence the plan projects, over that of knowing nothing |
| RoleSums.HeaviestStay | internal/agency/shapley.go:66-76 | beyond 64 players the heaviest stay, of equal weights the earlier names |
| RoleSums.RowMeaning | internal/agency/shapley.go:78-107 | each row is one player's, exact up to 14 players and marked as an estimate averaged over 256 orders from 15 on |
| Ledger.LedgerService.constructor | internal/agency/ledger.go:25-52 | a new ledger is empty |
| Ledger.LedgerService.Append | internal/agency/ledger.go:54-65 | the state gains exactly the committed record at the next sequence |
| Ledger.LedgerService.AppendLocked | internal/agency/ledger.go:67-109 | blanks filled in, status derived, certificate attached |
| Ledger.LedgerService.Propose | internal/agency/ledger.go:177-209 | the proposal joins the pending list with an open quorum |
| Ledger.LedgerService.PendingOf | internal/agency/ledger.go:211-231 | the pending entries of one organisation, all of them for no organisation |
| Ledger.LedgerService.Find | internal/agency/ledger.go:233-271 | the scan finds the first pending entry of that identifier |
| Ledger.LedgerService.CastBefore | internal/agency/ledger.go:233-271 | the duplicate scan is exact |
| Ledger.LedgerService.Vote | internal/agency/ledger.go:233-271 | not found, duplicate, recorded, or concluded: result and whole new state |
| Ledger.LedgerService.Finalize | internal/agency/ledger.go:273-303 | not found, not finalizable, or concluded: result and whole new state |
| Ledger.LedgerService.FinalizePendingEntryLocked | internal/agency/ledger.go:553-580 | a settled proposal moves to the log or, rejected, leaves the ledger; its certificate |
| Ledger.LedgerService.QuorumOf | internal/agency/ledger.go:524-551 | the quorum of an entry from its stored quorum, requirement and votes |
| Ledger.LedgerService.LatestSnapshot | internal/agency/ledger.go:305-330 | reading a snapshot is replaying the log |
| Ledger.LedgerService.AppendVoiceEvent | internal/agency/ledger.go:152-167 | the next snapshot is the previous one with that event applied once |
| Ledger.LedgerService.AppendSchedule | internal/agency/ledger.go:122-140 | the next snapshot is the previous one with that schedule and signal |
| Ledger.QuorumStable | internal/agency/ledger.go:524-551 | building the quorum again from the entry that carries it changes nothing |
| LedgerAnswers.RecordMeaning | internal/agency/ledger.go:67-109 | what a record says of its entry: blanks filled in, status derived, certificate repeating it, nothing else changed |
| LedgerAnswers.ProposalMeaning | internal/agency/ledger.go:177-209 | what a fresh proposal says of its entry |
| LedgerAnswers.ConclusionMeaning | internal/agency/ledger.go:553-580 | when and how a proposal was concluded, as its record says |
| LedgerAnswers.StampMeaning | internal/agency/ledger.go:233-271 | what is stamped on a counted vote |
| LedgerAnswers.VoteRefusals | internal/agency/ledger.go:233-271 | which refusal a vote gets, in terms of the pending list |
| LedgerRuns.Drive | internal/agency/ledger.go:54-303 | any sequence of calls to the service is the run of the state machine |
| LedgerRuns.StepGrows | internal/agency/ledger.go:54-303 | a step leaves the log alone or adds one certified record: a direct append, or a proposal with the approvals its own requirement asks for; what is dropped was refused by that requirement |
| LedgerRuns.RunKeepsLogSound | internal/agency/ledger.go:54-303 | in every run entry i has sequence i + 1 and a certificate whose approvals and rejections add up to its quorum size, and was appended directly or gathered the approvals of the requirement it was proposed with; rejected proposals are only outside the log |
| LedgerRuns.RunExtendsLog | internal/agency/ledger.go:54-303 | in every run the old log is a prefix of the new one |
| LedgerRuns.StepKeepsVotersDistinct | internal/agency/ledger.go:233-271 | no step lets a voter in twice |
| LedgerRuns.RunKeepsVotersDistinct | internal/agency/ledger.go:233-271 | pending voters stay distinct over whole runs |
| LedgerRuns.ConcludeEffect | internal/agency/ledger.go:553-580 | what concluding does to log, pending list and dropped proposals; the record keeps the proposal's votes, requirement and snapshot, and its final quorum |
| LedgerFates.ConcludeMoves | internal/agency/ledger.go:553-580 | concluding neither loses nor copies the proposal |
| LedgerFates.StepCensus | internal/agency/ledger.go:54-303 | a step changes the count of an identifier only by bringing it in |
| LedgerFates.RunCensus | internal/agency/ledger.go:54-303 | conservation: the ledger holds each identifier as often as it was brought in |
| LedgerFates.VotePlaces | internal/agency/ledger.go:233-271 | a counted vote puts the proposal where its course goes, settled at once only under automatic finalisation |
| LedgerFates.ElsewherePlaces | internal/agency/ledger.go:54-303 | operations on other entries leave the proposal where it is |
| LedgerFates.FinalizePlaces | internal/agency/ledger.go:273-303 | a finalisation concludes a proposal whose votes settle it and is refused otherwise |
| LedgerFates.RepeatRefused | internal/agency/ledger.go:233-271 | a repeated vote changes nothing |
| LedgerFates.GoneStays | internal/agency/ledger.go:233-303 | late votes and finalisations change nothing |
| LedgerFates.EveryProposalIsPlaced | internal/agency/ledger.go:177-303 | over every interleaved run any proposal, finalised automatically or by a call, whatever it requires and whatever votes it came with, is in exactly one of pending list, log and dropped, as the one record that the votes and finalisations addressed to it determine |
| LedgerFates.AutomaticCourse | internal/agency/ledger.go:233-271 | under automatic finalisation that course is the walk over each voter's first vote |
| LedgerFates.CourseByCall | internal/agency/ledger.go:233-303 | without it votes decide nothing: the tallies at the first finalisation they settle are the fate |
| LedgerFates.CallsAgree | internal/agency/ledger.go:273-303 | by a call the order of votes never matters, eligible voters or not |
| LedgerFates.ProposalIsPlaced | internal/agency/ledger.go:177-303 | hence an auto-finalised proposal is where the fate of its first votes says, as a record with its own terms, the shortest deciding prefix of those votes, and the approvals or rejections that decide |
| LedgerAnswers.VoteAnswer | internal/agency/ledger.go:233-271 | over any run: unknown once the course has ended, a repetition if the voter is counted, the new tallies otherwise |
| LedgerAnswers.FinalizeAnswer | internal/agency/ledger.go:273-303 | over any run: unknown once the course has ended, premature while the votes do not settle it, its certificate otherwise |
| LedgerFates.SideCounts | internal/agency/ledger.go:588-606 | distinct voters: tallies are sizes of the approving and rejecting sets |
| LedgerFates.VoteOrderNeverMatters | internal/agency/ledger.go:233-271 | same approvers and rejecters, no more than are eligible: same fate in every order; a full ballot is decided by the requirement alone |
| LedgerFates.HistoriesAgree | internal/agency/ledger.go:177-303 | confluence: two interleaved histories with the same ballots leave the proposal in the same place, each as the record its own first votes determine |
| Quorum.CountVotes | internal/agency/ledger.go:588-606 | the two tallies |
| Quorum.EveryVoteCounts | internal/agency/ledger.go:588-606 | approvals and rejections add up to the votes |
| Quorum.CountsByMultiset | internal/agency/ledger.go:588-606 | tallies do not depend on the order of the votes |
| Quorum.BuildQuorumState | internal/agency/ledger.go:524-551 | the ledger's quorum computation, early rejection included |
| BallotCounts.EarlyRejectionMeaning | internal/agency/ledger.go:524-551 | early rejection is exact: somebody has rejected, and no completion of the ballot reaches the requirement |
| BallotCounts.BuiltMeaning | internal/agency/ledger.go:524-551 | the ledger's quorum of any ballots, field by field |
| Quorum.ComputeQuorumState | internal/agency/consensus.go:40-81 | the consensus module's computation: named voters, first vote each, best case for the rest |
| BallotCounts.ComputedMeaning | internal/agency/consensus.go:40-81 | the consensus module's quorum of any ballots, repeated and unnamed ones among them |
| Quorum.QuorumsAgree | internal/agency/consensus.go:40-81 | exactly when the two computations agree on the decision, for distinct named voters, and when on the last vote's time; counts, key and missing votes always agree |
| Quorum.QuorumsDisagree | internal/agency/consensus.go:40-81 | two ballots on which they differ: a rejection without an electorate, and a requirement beyond the electorate |
| Tally.FateIsByCounts | internal/agency/ledger.go:524-580 | unless order sensitive, the first deciding prefix agrees with the final counts |
| Tally.OrderIrrelevant | internal/agency/ledger.go:233-271 | reordering the votes keeps the fate unless they are order sensitive |
| Tally.WithinBallotInsensitive | internal/agency/ledger.go:524-551 | no more votes than eligible voters: never order sensitive |
| Tally.FullBallotDecides | internal/agency/ledger.go:524-551 | early rejection is sound and every full ballot decides: accepted iff enough approvals |
| Tally.ImpossibleRequirementStaysOpen | internal/agency/ledger.go:524-551 | a requirement beyond the electorate stays open exactly while no one rejects |
| Tally.DecidedStays | internal/agency/ledger.go:233-271 | a decided fate is stable under further votes |
| Tally.OrderSensitivityIsExact | internal/agency/ledger.go:233-271 | order matters exactly when enough approvals and a blocking number of rejections are both present, possible only because voting does not check eligibility |
| Tally.OppositeFates | internal/agency/ledger.go:233-271 | and then approvals first and rejections first end oppositely |
| Tally.FirstVoteWins | internal/agency/ledger.go:233-271 | the smallest such ballot: one required, one eligible, an approval and a rejection |
| Tally.DecidingIsShortest | internal/agency/ledger.go:233-271 | the deciding votes are the shortest prefix that is decided, and decide as the whole does |
| Snapshots.Upsert | internal/agency/ledger.go:484-512 | the upsert loop: replaced in place or appended |
| Snapshots.UpsertedUnique | internal/agency/ledger.go:484-512 | upserting keeps keys unique |
| Snapshots.UpsertedHolds | internal/agency/ledger.go:484-512 | the upserted item is found under its key |
| Snapshots.ApplyVoiceEvent | internal/agency/ledger.go:442-482 | a voice event's effect on a snapshot, field by field |
| SnapshotFields.VoiceRooms | internal/agency/ledger.go:442-482 | a voice event touches one room, the projected or the named one, in the fields its kind says, and no other |
| Snapshots.VoiceIdempotent | internal/agency/ledger.go:442-482 | applying a voice event twice is applying it once |
| Snapshots.ApplyLedgerEntry | internal/agency/ledger.go:381-440 | one entry's effect: merge, signal, publication, voice, dates |
| Snapshots.ReplaySnapshot | internal/agency/ledger.go:305-330 | the replay loop over one organisation's entries |
| SnapshotFields.ReplayIsLastWords | internal/agency/ledger.go:305-330 | signal, voice event, actors, schedules and metadata are what the last of the organisation's entries that brings any brings, an entry's own signal or voice event winning over its snapshot's |
| SnapshotFields.ReplayPublications | internal/agency/ledger.go:305-330 | under each identifier the publication is the last word on it |
| SnapshotFields.ReplayNames | internal/agency/ledger.go:305-330 | the sequence of the last entry, and the name asked for unless a snapshot brings another |
| SnapshotFields.ReplayDate | internal/agency/ledger.go:381-440 | the latest of the last dated snapshot's date and the commits from it on |
| SnapshotFields.LatestMeaning | internal/agency/ledger.go:305-330 | and the snapshot handed out is that, dated now if nothing dates it |
| SnapshotFields.EntryRooms | internal/agency/ledger.go:381-400 | embedded rooms replace all rooms before a voice event counts |
| Snapshots.MergeVoice | internal/agency/ledger.go:402-482 | merging back a snapshot that was read and then touched gives that snapshot |
| Snapshots.MergeSchedule | internal/agency/ledger.go:402-440 | the same for schedules |
| SnapshotFields.ScheduledMeaning | internal/agency/ledger.go:122-140 | a scheduled snapshot has the schedule under its identifier, every other as before, the signal as its last and the later date |
| Snapshots.VoiceReplayAgrees | internal/agency/ledger.go:152-167 | replay agrees with the read-modify-write of voice events |
| Snapshots.ScheduleReplayAgrees | internal/agency/ledger.go:122-140 | replay agrees with the read-modify-write of schedules |
| Snapshots.ProjectedOneMore | internal/agency/ledger.go:305-330 | entries of other organisations have no effect |
| Snapshots.EntryKeepsKeys | internal/agency/ledger.go:381-482 | an entry keeps room, schedule and publication keys unique |
| Snapshots.ProjectionWellKeyed | internal/agency/ledger.go:305-330 | replay never duplicates a key no embedded snapshot duplicates |
| LedgerWriters.DriveWrites | internal/agency/ledger.go:54-303 | any sequence of operations and read-modify-write appends is the run of the model |
| LedgerWriters.WrittenRecords | internal/agency/ledger.go:122-167 | what the two appenders record: who, what, which kind, when, and final at once |
| LedgerWriters.VoiceEmbeds | internal/agency/ledger.go:152-167 | in a log whose embedded snapshots have unique keys a voice event embeds another one |
| LedgerWriters.ScheduleEmbeds | internal/agency/ledger.go:122-140 | the same for schedules |
| LedgerWriters.WrittenKeepsKept | internal/agency/ledger.go:54-303 | every operation and either append keeps the keys of embedded snapshots unique, in the log and among the pending |
| LedgerWriters.SnapshotsStayKeyed | internal/agency/ledger.go:54-330 | whatever is written from the empty ledger, no organisation's snapshot ever repeats a room, schedule or publication, provided callers bring in none that does |
| Leaves.NormalizeSummary | internal/agency/speculative_merkle.go:141-162 | the loop trims, lower-cases and collapses white space |
| Leaves.NormalizedIsStable | internal/agency/speculative_merkle.go:141-162 | normalising is idempotent; its results have single blanks and no blank ends |
| SummaryWords.NormalizedIsWords | internal/agency/speculative_merkle.go:141-162 | a normalised summary is its lower-cased words with one blank between them |
| SummaryWords.SameWords | internal/agency/speculative_merkle.go:141-162 | summaries normalise alike exactly when they have the same words, case aside |
| Leaves.MicroTextInjective | internal/agency/speculative_merkle.go:169-179 | the six-decimal text determines the millionths |
| Leaves.SameWeightText | internal/agency/speculative_merkle.go:169-189 | weights read the same exactly when they round to the same millionth, and are then closer than that |
| SummaryWords.WeightTextReads | internal/agency/speculative_merkle.go:164-189 | the text of a weight reads as its millionths, six digits after the point |
| Leaves.CloseWeightsReadDifferently | internal/agency/speculative_merkle.go:164-189 | the converse in the comment is false: 0.0000004 and 0.0000006 |
| Leaves.SortedMetaJoin | internal/agency/speculative_merkle.go:208-222 | keys collected in any order, sorted, paired, joined |
| Leaves.PreimageMeaning | internal/agency/speculative_merkle.go:112-131 | for mechanisms without the separator in identifier, role and summary: the preimage determines, and is determined by, identifier, role, normalised summary, rounded weight and the run of cells the lists are joined to |
| SummaryWords.PreimageSpelled | internal/agency/speculative_merkle.go:112-131 | what is hashed, field by field and in order |
| Leaves.TailForgetsOrder | internal/agency/speculative_merkle.go:199-222 | order within parents and references does not show |
| Leaves.TailMeaning | internal/agency/speculative_merkle.go:112-131 | the joined lists are equal exactly when their runs of cells are |
| Leaves.ListedIsTokens | internal/agency/speculative_merkle.go:112-131 | the cells are the sorted parents, the sorted references and the sorted pairs one after another, an empty list standing for one empty cell |
| Leaves.ListsDeterminedByCounts | internal/agency/speculative_merkle.go:112-131 | of nodes with one run of cells the lists agree exactly when their counts do |
| Leaves.PairsDetermineMetadata | internal/agency/speculative_merkle.go:208-222 | the pairs determine the metadata when no key holds an equals sign |
| Leaves.ParentsAreNotDetermined | internal/agency/speculative_merkle.go:112-131 | where one list ends does not show: two nodes, one with the other's parent as a reference |
| Leaves.PreimageIsNeverEmptyMark | internal/agency/speculative_merkle.go:259-266 | no node hashes like the empty graph |
| Merkle.MerkleRootFromSortedLeaves | internal/agency/speculative_merkle.go:228-246 | the level-by-level loops build the root |
| Merkle.NextLevelAt | internal/agency/speculative_merkle.go:228-246 | each parent hashes its two children, an odd last one twice |
| Merkle.RootKeepsBottoms | internal/agency/speculative_merkle.go:228-246 | the leaves under a root are those it was built from |
| Merkle.RootDeterminesLeafSet | internal/agency/speculative_merkle.go:228-266 | equal roots, equal leaf sets, for lists of any two lengths including none |
| Merkle.RootAndCountDetermineLeaves | internal/agency/speculative_merkle.go:228-246 | lists are identical exactly when root and leaf count are |
| Merkle.OddLeafCollides | internal/agency/speculative_merkle.go:228-246 | a list of odd length and its extension by its last leaf share a root |
| Merkle.RepeatedNodeIsHidden | internal/agency/speculative_merkle.go:75-108 | a graph of odd size and the graph that repeats its node of greatest leaf attest to one root |
| Merkle.SomeRepeatIsHidden | internal/agency/speculative_merkle.go:75-108 | every graph of odd size above one has a node that can be listed once more without changing the root, whatever the order of hashes |
| Merkle.AbcHidesARepeat | internal/agency/speculative_merkle.go:28-33 | a concrete graph: of nodes a, b and c one of the three repeats is not noticed |
| Merkle.ParentPassesForReference | internal/agency/speculative_merkle.go:28-33 | a concrete pair: graphs of one node whose parent passes for a reference |
| Merkle.EqualRootsDifferByLastLeaf | internal/agency/speculative_merkle.go:228-246 | of two sorted lists with one root the longer is the shorter and repeats of its last leaf |
| Merkle.RunsShareRoot | internal/agency/speculative_merkle.go:228-246 | how many repeats of the last digest keep the root, on any level: exactly those that the halving of the lengths makes up for before the repeats run out |
| Merkle.SharedRootIsExact | internal/agency/speculative_merkle.go:228-266 | two sorted leaf lists of any lengths share a root exactly when they agree up to the run of one last leaf and their lengths merge so |
| Merkle.SharedRootOfGraphs | internal/agency/speculative_merkle.go:75-108 | exactly when any two graphs share a root, names repeated or not |
| Merkle.DistinctLeavesRoot | internal/agency/speculative_merkle.go:228-246 | without duplicates roots are equal exactly when leaf sets are |
| Merkle.MerkleAttestWithConfig | internal/agency/speculative_merkle.go:75-108 | the attestation loop: leaves, sort, root, counts |
| Merkle.AttestMeaning | internal/agency/speculative_merkle.go:75-108 | the leaves of the nodes, one each, sorted, if asked for; their number; their root |
| Merkle.AttestForgetsNodeOrder | internal/agency/speculative_merkle.go:89-95 | the attestation is unchanged by any reordering of the nodes |
| Merkle.EmptyIsDistinguished | internal/agency/speculative_merkle.go:259-266 | the empty root belongs to empty graphs only |
| Merkle.RootMeaning | internal/agency/speculative_merkle.go:28-33 | for uniquely named graphs: equal roots exactly when each graph has every mechanism of the other |
| Merkle.RootDeterminesNode | internal/agency/speculative_merkle.go:28-33 | of nodes with one name in graphs with one root everything hashed agrees, and the lists agree exactly when their counts do |
| Merkle.DigestOrder | internal/agency/speculative_merkle.go:93-95 | digests are totally ordered, so sorting leaves is canonical |
| Converge.CountRoots | internal/agency/speculative_converge.go:97-100 | histogram and buckets after the counting loop |
| Converge.SortBuckets | internal/agency/speculative_converge.go:101-104 | every bucket sorted in place, in any key order |
| Converge.PluralityRoot | internal/agency/speculative_converge.go:127-147 | the scan with best, count and tie flag |
| Converge.PluralityMeaning | internal/agency/speculative_converge.go:127-147 | it finds a maximum, and the flag says exactly whether another root attains it |
| Converge.ConsensusSet | internal/agency/speculative_converge.go:153-165 | the leaves of the first bucket peer |
| Converge.MarkExcluded | internal/agency/speculative_converge.go:183-192 | consensus leaves a dissenter lacks are marked |
| Converge.MarkIncluded | internal/agency/speculative_converge.go:183-198 | leaves a dissenter adds are marked |
| Converge.ComputeDivergenceLoci | internal/agency/speculative_converge.go:153-221 | the per-leaf state loops produce the sorted loci |
| SortedSets.SetToSortedSlice | internal/agency/speculative_converge.go:223-233 | collecting a set in any order and sorting gives its ascending list |
| Converge.MerkleConvergeWithThreshold | internal/agency/speculative_converge.go:81-123 | the whole report |
| CohortCounts.HistogramMeaning | internal/agency/speculative_converge.go:81-123 | the histogram counts the holders of each root, and the buckets name them, sorted |
| CohortCounts.ConvergenceMeaning | internal/agency/speculative_converge.go:81-123 | status, consensus and quorum by counting holders of roots |
| CohortCounts.ThresholdMeaning | internal/agency/speculative_converge.go:81-123 | the given threshold if it is a fraction, 0.66 otherwise |
| Divergence.GateMeaning | internal/agency/speculative_converge.go:105-118 | a root is the consensus exactly when it strictly leads; converged exactly when it also holds the threshold's share; divergent exactly when none leads |
| Divergence.MajorityConverges | internal/agency/speculative_converge.go:105-118 | above one half a share alone is enough |
| Divergence.DefaultGate | internal/agency/speculative_converge.go:28-31 | the default gate in whole numbers: 33 of every 50 |
| Divergence.DefaultIsNotTwoThirds | internal/agency/speculative_converge.go:28-31 | which is not "at least two-thirds": 33 of 50 pass |
| Divergence.LociShape | internal/agency/speculative_converge.go:199-221 | missing loci only exclude, extra loci only include, each names someone, and only dissenters |
| Divergence.BucketIsNeverNamed | internal/agency/speculative_converge.go:183-198 | with distinct names no consensus agent is named |
| Divergence.LociAreLossless | internal/agency/speculative_converge.go:153-221 | the loci give back every dissenter's leaves exactly when the consensus has leaves (or the dissenter none) |
| Divergence.OnePeerIsEnough | internal/agency/speculative_converge.go:154-162 | all real attestations of a bucket have the same leaves, which justifies the early break |
| Divergence.DissentersSurviveTheReport | internal/agency/speculative_converge.go:153-221 | for real attestations: lossless exactly when the consensus is not the empty graph |
| Divergence.EmptyConsensusHidesDissent | internal/agency/speculative_converge.go:153-221 | a concrete cohort: two empty graphs outvote a dissenter, and no divergence is reported |
| Dyad.FindNodeForLeaf | internal/agency/speculative_dyad.go:214-224 | the first node with that leaf |
| Dyad.ListDifference | internal/agency/speculative_dyad.go:158-169 | the leaves of one side only, in whatever order the map yields them |
| Dyad.BuildDyadDelta | internal/agency/speculative_dyad.go:149-212 | the three delta shapes and every refusal |
| DeltaContents.DeltaRecords | internal/agency/speculative_dyad.go:149-242 | what a delta records: both names, the leaves that come and go, and the edit, with old and new values of each differing field |
| Dyad.CloneCausalGraph | internal/agency/speculative_dyad.go:301-332 | the clone equals the graph |
| Dyad.MutateNode | internal/agency/speculative_dyad.go:255-275 | edits the first node of that name and no other |
| Dyad.RemoveNode | internal/agency/speculative_dyad.go:278-291 | drops the first node of that name and no other |
| Dyad.DyadHydrate | internal/agency/speculative_dyad.go:249-299 | hydration and its four errors |
| DeltaContents.HydrationMeaning | internal/agency/speculative_dyad.go:249-299 | any delta whatever: which error, or which nodes, mutation before addition before removal |
| DeltaContents.HydratedVerdict | internal/agency/speculative_dyad.go:249-299 | the sibling's name and the new graph printed anew; headline and confidence the base's |
| DyadRoundTrip.DeltaShape | internal/agency/speculative_dyad.go:149-212 | a delta exists exactly for graphs one edit apart, and names that edit |
| DyadRoundTrip.PatchMeaning | internal/agency/speculative_dyad.go:226-272 | the patched node is the sibling's exactly when the mutation can be carried |
| DyadRoundTrip.HydrateInvertsDelta | internal/agency/speculative_dyad.go:244-299 | every delta built can be applied; the root is the sibling's always for additions and removals, for mutations exactly when neither role nor summary is cleared and the lists agree; the headline stays the base's |
| DyadRoundTrip.ClearedSummaryIsLost | internal/agency/speculative_dyad.go:226-242 | a concrete loss: an emptied summary is not restored |
| DyadPairs.FindPartner | internal/agency/speculative_dyad.go:107-121 | the inner scan finds the first unpaired partner |
| DyadPairs.DyadCompress | internal/agency/speculative_dyad.go:76-134 | the flag-driven greedy loops compute the recursive pairing and its report |
| DyadMatching.CompressionConserves | internal/agency/speculative_dyad.go:76-134 | every verdict is exactly once a base or a delta's sibling; slots before = slots after + deltas |
| DyadMatching.ReportedUnpaired | internal/agency/speculative_dyad.go:122-133 | the unpaired identifiers are those of bases without a delta |
| DyadMatching.ReportTellsEverySlot | internal/agency/speculative_dyad.go:122-133 | the report lists each unpaired verdict exactly as often as it stands unpaired, and deltas and unpaired add up to the slots |
| DyadMatching.DeltaIsSymmetric | internal/agency/speculative_dyad.go:149-212 | being one edit apart does not depend on which is the base |
| DyadMatching.PairingIsMaximal | internal/agency/speculative_dyad.go:101-130 | an unpaired verdict had no partner among the later ones left |
| DeltaContents.CompressionIsGreedy | internal/agency/speculative_dyad.go:76-134 | verdicts are taken by name, and each is paired with the first by name that is one edit away |
| DeltaContents.ReportedDeltas | internal/agency/speculative_dyad.go:76-134 | the deltas reported are those of the paired slots |
| DyadMatching.UnpairedAreUnrelated | internal/agency/speculative_dyad.go:101-130 | no two unpaired verdicts are one edit apart |
| DyadMatching.CompressionRecovers | internal/agency/speculative_dyad.go:76-134 | bases and rehydrated siblings together have the identifiers and roots of the input, when every mutation can be carried |
| Reconcile.FindCompatibleNode | internal/agency/speculative_reconcile.go:248-273 | exact leaf first, relaxed match second |
| Reconcile.AnalyzeMetaNode | internal/agency/speculative_reconcile.go:202-239 | support, role agreement and weight delta of one meta node |
| Reconcile.CollectSeen | internal/agency/speculative_reconcile.go:285-293 | one entry per distinct leaf, the first node that has it |
| Reconcile.ComputeCoverage | internal/agency/speculative_reconcile.go:279-308 | the covered fraction and the sorted identifiers missed, in any map order |
| Faithfulness.AnyUnsupported | internal/agency/speculative_reconcile.go:310-317 | some node is below the floor |
| Faithfulness.AnalyzeNodes | internal/agency/speculative_reconcile.go:123-143 | the accumulators of the pass over the meta |
| Faithfulness.MetaReconcileWithConfig | internal/agency/speculative_reconcile.go:102-176 | the whole report, its two refusals included |
| Faithfulness.CounterpartAgrees | internal/agency/speculative_reconcile.go:248-273 | every match, by leaf or relaxed, has the node's role and a weight within the tolerance, or within the millionth that equal leaves hide |
| Faithfulness.AnalysisMeaning | internal/agency/speculative_reconcile.go:202-239 | support is positive exactly when some peer node corresponds, and then roles agree entirely |
| Support.RowCounts | internal/agency/speculative_reconcile.go:202-239 | a row's support times the peers is the number of peers with a corresponding node, it lists exactly their names, and its drift is the mean gap of the weights of the nodes that speak for them |
| Support.ReportScores | internal/agency/speculative_reconcile.go:102-150 | rows count backers among the peers that have a graph, and support and drift of the report are the means of its rows |
| Support.StatusMeaning | internal/agency/speculative_reconcile.go:102-176 | the status by the report's own scores and rows, at the configured thresholds or the defaults, in both directions |
| Support.RefusalMeaning | internal/agency/speculative_reconcile.go:102-122 | without meta nodes, or a peer with a graph, everything is refused as fabricated |
| Support.CoverageMeaning | internal/agency/speculative_reconcile.go:279-308 | coverage times the distinct mechanisms of the peers is the number some meta node corresponds to; the others are named, one each, in order |
| Faithfulness.FabricatedExactly | internal/agency/speculative_reconcile.go:102-176 | fabricated exactly when there is nothing to compare or some meta node has no counterpart in any peer |
| Faithfulness.ScoresInRange | internal/agency/speculative_reconcile.go:144-150 | support and coverage are fractions; drift never exceeds what the matching allows |
| Faithfulness.DriftNeverFires | internal/agency/speculative_reconcile.go:29-38 | with the defaults weight drift is never why a meta is called drifted |
| Bundle.AttestCohort | internal/agency/speculative_bundle.go:96-112 | tiles and attestations, in input order |
| Bundle.ReconcileMeta | internal/agency/speculative_bundle.go:117-138 | reconciliation exactly when there is a meta graph |
| Bundle.MarkCohort | internal/agency/speculative_bundle.go:143-151 | the membership flags, set in place |
| Bundle.DerivedCohortId | internal/agency/speculative_bundle.go:172-187 | the derived name is of the sorted roots |
| Bundle.BuildSpeculativeBundle | internal/agency/speculative_bundle.go:91-167 | the whole bundle, None for an empty cohort |
| CohortCounts.BundleMeaning | internal/agency/speculative_bundle.go:91-167 | a bundle repeats what it was given: tiles in order, the meta if it has a graph, the name unless blank |
| CohortCounts.HeadlineMeaning | internal/agency/speculative_bundle.go:235-260 | the headline from the verdicts: unknown, divergent, partial, fabricated or converged, each exactly |
| Bundle.FlagMeaning | internal/agency/speculative_bundle.go:143-151 | a tile is flagged exactly when some verdict of its name has the consensus root; with distinct names, exactly when its own verdict has |
| Bundle.CohortIdForgetsOrder | internal/agency/speculative_bundle.go:169-187 | the cohort's name does not depend on its order |
| Bundle.DriftIsNeverAnnounced | internal/agency/speculative_bundle.go:235-260 | the "drifted" headline is unreachable; a drifted meta reads "converged" |
| Unanimity.UnanimousConverges | internal/agency/speculative_converge.go:81-123 | one root: converged on it, without loci |
| Unanimity.UnanimousKeepsSlots | internal/agency/speculative_dyad.go:76-134 | one leaf set: nothing pairs |
| Unanimity.UnanimousIsFaithful | internal/agency/speculative_reconcile.go:102-176 | the peers' leaf set: faithful, support and coverage 1, drift below a millionth |
| Unanimity.AgreementIsReported | internal/agency/speculative_bundle.go:91-167 | end to end for a cohort that agrees with its meta: converged, no loci, fully faithful, every peer in the cohort, no delta, headline "converged" |
| Pearl.Abduce | internal/agency/pearl_loop.go:67-91 | evidence weight, confounder load and the listed identifiers |
| Pearl.EnumerateActions | internal/agency/pearl_loop.go:97-130 | scored, sorted, first one recommended |
| Pearl.Predict | internal/agency/pearl_loop.go:136-165 | recommendation, confidence, residual questions and the block |
| Pearl.RunPearlLoop | internal/agency/pearl_loop.go:171-184 | the three stages composed |
| Pearl.PlanMeaning | internal/agency/pearl_loop.go:136-184 | a plan blocks on confounder load; unblocked it recommends the best candidate and projects its score |
| RoleSums.HypothesisMeaning | internal/agency/pearl_loop.go:67-91 | the hypothesis in plain role sums: evidence plus half the unknown, the confounders as load, and the names of the nodes behind them, sorted, each as often as it occurs |
| RoleSums.ProjectionMeaning | internal/agency/pearl_loop.go:136-165 | blocked from a load of 0.6; blocked or without interventions a plan recommends nothing and projects the squashed evidence less twice the load |
| RoleSums.ActionsMeaning | internal/agency/pearl_loop.go:97-130 | one action for each intervention, with its label, its risk and the score in plain role sums, by falling score and then name, the first recommended unless blocked |
| RoleSums.ResidualMeaning | internal/agency/pearl_loop.go:136-165 | what a plan leaves open: one question on a block, else one for each node of unknown role, in listing order |
| Pearl.RecommendedIsBest | internal/agency/pearl_loop.go:97-165 | the recommended intervention scores at least as well as any other |
| Pearl.LoadCostsScore | internal/agency/pearl_loop.go:106-124 | more confounder load: strictly lower score, no lower risk, and scores stay in (0, 1) and risks above the floor |
| Pearl.ScoreFollowsStrength | internal/agency/pearl_loop.go:106-124 | at equal announced risk one candidate outscores another exactly when evidence and half the node weight add up to more |
| Counterfactuals.LeaderIsRecommended | internal/agency/pearl_loop.go:97-165 | an unblocked plan recommends the intervention none beats before squashing, at its score |
| Counterfactuals.LeaderIgnoresLoad | internal/agency/pearl_loop.go:97-130 | where no risk is announced the confounder load never moves the lead |
| Dispute.FindNode | internal/agency/dispute.go:314-324 | the first node of that name |
| Dispute.ApplyDisputeClaim | internal/agency/dispute.go:140-230 | every ground's edit and whether it applied |
| ClaimEffects.MislabelMeaning | internal/agency/dispute.go:146-161 | a mislabelled-role claim applies exactly to a named node of another role than a given one, and changes that role and nothing else |
| ClaimEffects.StaleMeaning | internal/agency/dispute.go:197-219 | a stale-evidence claim scales the named node's weight by the factor, or a quarter, and marks it |
| ClaimEffects.BlockedMeaning | internal/agency/dispute.go:182-196 | an action-blocked claim takes the named node out |
| ClaimEffects.MissingMeaning | internal/agency/dispute.go:162-181 | a missing-confounder claim adds one confounder of the description, weight or 0.7, under a name made from the description, with -cf if that is taken |
| ClaimEffects.OtherGroundsMeaning | internal/agency/dispute.go:220-230 | no other ground changes a graph |
| ClaimEffects.SlugOfSlug | internal/agency/dispute.go:325-356 | names made from names are stable |
| ClaimEffects.SlugOfPhrase | internal/agency/dispute.go:325-356 | what separates words becomes one dash, none at the ends |
| Dispute.Replay | internal/agency/dispute.go:241-300 | the world of the edited graph |
| Dispute.EvaluateDispute | internal/agency/dispute.go:241-300 | the report that compares the two |
| ClaimEffects.ReportMeaning | internal/agency/dispute.go:241-300 | any verdict's report: the two worlds and every difference between them, or what is lost when nothing is left to replay |
| ClaimEffects.OriginalMeaning | internal/agency/dispute.go:241-300 | the world a verdict reports, with a plan or without |
| ClaimEffects.TopMeaning | internal/agency/dispute.go:241-300 | what ranks first in a replay is the attribution of rank 1, no smaller than any |
| Dispute.AbsConfidenceSwing | internal/agency/dispute.go:305-311 | the size of the swing, at most 1 |
| Counterfactuals.RankedByRaw | internal/agency/pearl_loop.go:97-130 | the ranking of actions is fixed before evidence is weighed |
| Counterfactuals.EvidenceNeverDecides | internal/agency/pearl_loop.go:67-165 | same interventions, same load: same recommendation and block, less evidence never more confident |
| Counterfactuals.ConsistentOriginal | internal/agency/dispute.go:241-300 | a consistent verdict's world is the replay of its own graph |
| Counterfactuals.StaleEvidenceOnlyLowers | internal/agency/dispute.go:199-219 | a stale-evidence claim flips neither recommendation nor block and never raises confidence |
| Counterfactuals.NoOpClaimSwingsNothing | internal/agency/dispute.go:241-300 | a claim that was not applied swings nothing |
| Counterfactuals.WithoutRecommended | internal/agency/pearl_loop.go:97-165 | without the recommended node the plan chooses another or none |
| Counterfactuals.BlockingRecommendedFlips | internal/agency/dispute.go:140-300 | blocking the recommended action always flips the recommendation |
| Counterfactuals.MissingConfounderFlips | internal/agency/dispute.go:140-300 | a missing confounder flips the block exactly when its weight crosses the threshold |
| ClaimEffects.EvidenceAsConfounder | internal/agency/dispute.go:140-300 | calling evidence a confounder moves exactly its weight from evidence to load, so it flips the block exactly when that carries the load across 0.6 |
| ClaimEffects.StaleEvidenceLoses | internal/agency/dispute.go:140-300 | stale evidence loses exactly its weight less the factor, and nothing else moves |
| Counterfactuals.BlockedOnlyLosesConfidence | internal/agency/dispute.go:140-300 | on a plan already blocked a missing confounder flips nothing and costs exactly the squashed difference in confidence |
| Reviewer.Adjudicate | internal/agency/adjudication.go:84-165 | upheld only at or above the upholding threshold, rejected only below the noting one, and ruled on at all exactly when the claim was applied |
| ReviewRules.RulingMeaning | internal/agency/adjudication.go:72-165 | exactly which reports are upheld, noted and rejected, at 0.15 and 0.03, and ruled mechanically |
| ReviewRules.ScoreMeaning | internal/agency/adjudication.go:84-95 | the score: confidence moved, at most 1, and 0.5, 0.3 and 0.1 for the three flips |
| Reviewer.ProposeMislabelDisputes | internal/agency/adversarial_reviewer.go:170-192 | one claim per evidence node with a negative attribution |
| Reviewer.ProposeActionBlockedDisputes | internal/agency/adversarial_reviewer.go:194-212 | one claim per recommended action |
| Reviewer.ProposeEvidenceStaleDisputes | internal/agency/adversarial_reviewer.go:246-269 | one claim per heavy evidence node |
| Reviewer.EvaluateAll | internal/agency/adversarial_reviewer.go:108-168 | evaluated, adjudicated, kept or not |
| Reviewer.Review | internal/agency/adversarial_reviewer.go:108-155 | propose, evaluate, sort, cut |
| Reviewer.StrongerFirstOrders | internal/agency/adversarial_reviewer.go:138-149 | the ranking is a total order on what it compares |
| Reviewer.TruncationKeepsStrongest | internal/agency/adversarial_reviewer.go:138-154 | nothing cut off outranks anything kept |
| Reviewer.UpheldSurvives | internal/agency/adversarial_reviewer.go:128-154 | if anything upheld was kept, the review opens with an upheld record |
| Reviewer.RecommendingVerdictIsUpheldAgainst | internal/agency/adversarial_reviewer.go:108-212 | a consistent verdict that recommends an action always gets an upheld first record |
| Reviewer.MislabelNeverProbed | internal/agency/adversarial_reviewer.go:170-192 | on non-negative weights no role is probed |
| Reviewer.MislabelProbesNegativeEvidence | internal/agency/adversarial_reviewer.go:170-192 | on any weights exactly the attributed evidence nodes of negative weight are probed |
| Reviewer.ConfounderProbeIsRaised | internal/agency/adversarial_reviewer.go:214-244 | on a load of 0.6 or more the missing-confounder probe is raised exactly on high confidence and fewer than two confounders; raised, it is among the claims |
| Reviewer.ConfounderProbeRuling | internal/agency/adversarial_reviewer.go:214-244 | its ruling for every load: in [-0.1, 0.6) the added 0.7 flips the block and it is upheld; at 0.6 and above it is upheld exactly when the confidence drops by 0.15; below -0.1 exactly when the plans differ |
| Reviewer.ConfounderProbeRulingBelow | internal/agency/adversarial_reviewer.go:214-244 | below -0.1 in terms of the graph: without interventions the added load must take 0.15 of confidence; with some, the lead must pass to another name or the leaders' scores be 0.15 apart |
| Reviewer.ConfounderProbeRulingUnannounced | internal/agency/adversarial_reviewer.go:214-244 | where no risk is announced the heaviest intervention leads throughout, and its weight decides |
| Reviewer.ConfounderProbeNotUpheld | internal/agency/adversarial_reviewer.go:214-244 | a verdict on which it is raised and not upheld: evidence of weight 100 and one confounder of weight 0.6 |
| Causal.SquashingExists | internal/agency/pearl_loop.go:186-191 | a function with the assumed properties of the squashing function exists |
| Reviewer.ReviewIsBounded | internal/agency/adversarial_reviewer.go:108-155 | the cap holds and every record rules on a proposed claim |
| ReviewRules.ProposedMeaning | internal/agency/adversarial_reviewer.go:108-278 | exactly which claims are raised, by each heuristic, and no others |
| ReviewRules.KeptMeaning | internal/agency/adversarial_reviewer.go:128-168 | a record is kept exactly if it is the ruling on a proposed claim whose report is worth it |
| ReviewRules.KeepMeaning | internal/agency/adversarial_reviewer.go:160-168 | which reports are worth keeping |
| ReviewRules.ReviewMeaning | internal/agency/adversarial_reviewer.go:108-155 | a review is in order of status, score and name, and unless cut by the cap holds exactly the kept records |
| ChainText.FlatChain | internal/agency/causal_graph.go:74-111 | copy, stable sort, print |
| ChainText.FlatMeaning | internal/agency/causal_graph.go:63-111 | one line for each node, with role and label, so arranged that no role stands after one it precedes (outcome, intervention, evidence, confounder, unknown), weights never rise within a role and equal ones go by name |
| ChainText.ParseEntry | internal/agency/causal_graph.go:121-150 | role and summary of one entry |
| ChainText.ParseMeaning | internal/agency/causal_graph.go:121-150 | an entry with a role's name before its first colon, in any case and spacing, has that role and the rest for a summary; every other is all summary |
| ChainText.LoudEvidence | internal/agency/causal_graph.go:121-150 | a concrete entry in odd case and spacing |
| ChainText.HydrateLegacyCausalChain | internal/agency/causal_graph.go:121-150 | one node per entry with falling weights, none for no entries |
| ChainText.HydratedMeaning | internal/agency/causal_graph.go:121-150 | a hydrated node's weight falls evenly from 1, and it has no parents, references or metadata |
| ChainText.PrefixParses | internal/agency/causal_graph.go:74-150 | a printed prefix parses back to its role |
| ChainText.CanonicalIsText | internal/agency/causal_graph.go:74-150 | which entries are written as they were parsed, in terms of their text: trimmed, not empty, and naming no role or one of the four just as the printer does |
| ChainText.HydratedPrints | internal/agency/causal_graph.go:74-150 | a hydrated node prints to its entry exactly when the entry is canonical |
| ChainText.ChainRoundTrip | internal/agency/causal_graph.go:74-150 | text to graph to text is the identity exactly on bucketed chains of canonical entries |
| ChainText.GraphRoundTrip | internal/agency/causal_graph.go:74-150 | graph to text to graph to text keeps the text exactly when every node prints a canonical entry and none is read back into an earlier bucket than one before it |
| ChainText.CanonicalNode | internal/agency/causal_graph.go:74-150 | which nodes print canonical entries, in terms of role and label |
| ChainText.InStepByPairs | internal/agency/causal_graph.go:74-111 | with unique names the order condition can be asked of any two nodes |
| ChainText.PlainGraphRoundTrip | internal/agency/causal_graph.go:74-150 | every plainly labelled graph keeps its text |
| ChainText.GraphTextMoves | internal/agency/causal_graph.go:74-150 | two nodes whose text does not survive |
| ChainText.SyncIdempotent | internal/agency/types.go:582-604 | exactly when syncing twice is syncing once; the comment claims always |
| ChainText.SyncMeaning | internal/agency/types.go:582-604 | a graph is never changed and with nodes rewrites the chain; a chain is read only where there is no graph |
| ChainText.SyncTwiceMoves | internal/agency/types.go:582-604 | two entries the second sync turns around |
| Resp.WriteRedisCommand | internal/agency/bus.go:214-228 | the array-of-bulk-strings framing |
| Resp.BufReader.ReadTrimmedLine | internal/agency/bus.go:230-284 | one line, trimmed, cursor after it |
| Resp.BufReader.ReadOnce | internal/agency/bus.go:262-266 | one Read into a zeroed buffer: what is at hand, the rest left zero, the cursor after it |
| Resp.BufReader.ReadOnePart | internal/agency/bus.go:230-284 | one bulk string as far as a single Read goes, or one line; its errors and panics; cursor after it |
| Resp.BufReader.ReadSized | internal/agency/bus.go:262-266 | a buffer of the announced size: what is kept of it, its panics and errors |
| Resp.BufReader.ReadAllParts | internal/agency/bus.go:230-284 | all parts of an array |
| Resp.BufReader.ReadPubSubMessage | internal/agency/bus.go:230-284 | the payload of a message, "" for control replies |
| Resp.BufReader.ReadLoop | internal/agency/bus.go:185-212 | the subscriber's loop: messages until one cannot be read, without empty and undecodable ones |
| Resp.NumberRoundTrip | internal/agency/bus.go:214-284 | a printed length is read back and only its line consumed |
| Resp.BulkRoundTrip | internal/agency/bus.go:214-284 | a bulk string of any bytes, CR and LF included, is read back, and nothing more consumed, exactly when it arrives with its CRLF in one Read |
| Resp.ShortRead | internal/agency/bus.go:262-266 | after a short Read either the text is wrong or the next part cannot be read |
| Resp.PartsRoundTrip | internal/agency/bus.go:230-284 | an array of texts and numbers is read back, and nothing more consumed, exactly when each text arrives in one Read |
| Resp.CommandRoundTrip | internal/agency/bus.go:214-284 | reading what was written returns the arguments and stops at the suffix exactly when each argument arrives in one Read |
| Resp.FrameRoundTrip | internal/agency/bus.go:214-284 | a published frame decodes to its payload, and nothing more is consumed, exactly when its three texts each arrive in one Read, whatever channel and payload hold |
| Resp.StreamRoundTrip | internal/agency/bus.go:185-284 | from a stream of messages and control replies in any mixture whose texts each arrive in one Read, a subscriber receives the published signals, in order, and no others |
| Resp.StreamReadExactly | internal/agency/bus.go:185-284 | a stream of messages is read message by message as it was sent exactly when every text arrives in one Read |
| Resp.CutShortSilences | internal/agency/bus.go:185-284 | a payload cut short is delivered with zeros for what is missing, and nothing after it arrives, unless its rest starts an array |
| Resp.OneByteFirst | internal/agency/bus.go:230-284 | a concrete frame: of payload xy one byte arrives first, and the subscriber receives x and a zero, and nothing more |
| Resp.CutShortUnnoticed | internal/agency/bus.go:230-284 | why control replies have no converse: of one channel name a short read goes unnoticed |
| Resp.MissingIsNotEmpty | internal/agency/bus.go:230-284 | a bulk string or array announced as missing is not read as empty |
| Resp.OtherKindsRefused | internal/agency/bus.go:230-284 | any other kind of part, or of message, is refused |
| Resp.OtherArraysRefused | internal/agency/bus.go:273-284 | an array that is neither a message nor a control reply is refused |
| Sorting.SortForgetsOrder | internal/agency/speculative_merkle.go:93-95 | sorting by a total order forgets the order of its input |
| Sorting.SortIsIdentityOnSorted | internal/agency/causal_graph.go:74-111 | the sort is stable: sorted input, ties included, is left alone |
| Sorting.SortCommutesWithMap | internal/agency/pearl_loop.go:97-130 | sorting sees its elements only through comparisons |

## Left out

- Files, JSON, SQLite and sockets: the ledger's two files are two sequences, a connection is the string of its bytes with the number at hand for each Read, and decoding a signal is a parameter.
- Hash values themselves, entry hashes in certificates, protocol versions, timestamps of attestations, notes and narrative strings.
- Rounding of floating point, NaN and infinite weights, and weights beyond the 64-bit range of the six-decimal conversion.
- Unicode case folding and white space beyond ASCII.
- `sort.Slice` on verdict identifiers is not stable in the program; the model's is, so for repeated identifiers it fixes one of the orders the program may choose.
- AppendSchedule and AppendVoiceEvent read and append under separate locks; they are modelled for sequential callers only.
- AppendSignal and AppendSnapshot, which are Append with one field set.
- LedgerFates.EveryProposalIsPlaced: assumes the identifier is brought in only once, as generated identifiers are.
- LedgerFates.ProposalIsPlaced: the part of LedgerFates.EveryProposalIsPlaced where the first votes alone decide; nothing required and a finalisation before the first vote is left to the latter.
- Counterfactuals.NoOpClaimSwingsNothing: for verdicts whose plan and attribution were computed from their graph, as the kernel produces them.
- DyadMatching.CompressionRecovers: for uniquely named graphs without the separator character and mutations a delta can carry; the exact condition per delta is DyadRoundTrip.HydrateInvertsDelta.
- Faithfulness.FabricatedExactly: for nodes without the separator character, where a leaf determines its role.
- Resp.BufReader.ReadOnePart: huge announced lengths do not exhaust memory.
- Resp.StreamRoundTrip: one direction, since a short read inside a control reply can go unnoticed (Resp.CutShortUnnoticed); array by array, for messages and for streams of messages the condition is exact (Resp.PartsRoundTrip, Resp.FrameRoundTrip, Resp.StreamReadExactly).
- Converge.MerkleConvergeWithThreshold: an attestation whose root text is empty, for which the program drops the consensus, has no counterpart among symbolic digests.
- Dispute.SimpleSlug: written as a recursion, the program loops over the runes.
- normalizeConsensusRequirement, allowsVoter, implicitConsensusVote and vote sorting: short case analysis the ledger does not call.
- readRedisSimpleResponse, connecting, authenticating and reconnecting.
- MemoryEventBus, RuntimeManager and Scheduler: timers, contexts and channel closing.
- Tickets, kernel dispatch, routing, genesis and configuration merging; default filling of the adversarial review configuration; MarshalSpeculativeBundle and its parser.
- FilterByRole, CountByRole, AdjudicateBatch, SortDisputeReports and CohortAgentIDs: one-line folds over what is modelled.
