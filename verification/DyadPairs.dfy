/** Greedy pairing of verdicts into bases and deltas (speculative_dyad.go). */
module DyadPairs {
  import opened Sorting
  import opened Text
  import opened Merkle
  import opened Dyad
  import opened DyadRoundTrip

  datatype CompressionReport = CompressionReport(
    slotsBefore: nat, slotsAfter: nat, deltas: seq<DyadDelta>, unpairedIds: seq<string>)

  /** A stored base and, if it was paired, the verdict its delta stands for. */
  datatype Slot = Slot(base: LabeledVerdict, sibling: Option<LabeledVerdict>)

  predicate ByVerdictId(a: LabeledVerdict, b: LabeledVerdict) {
    StringLE(a.id, b.id)
  }

  /** Index of the first verdict one edit away from `v`, or the length. */
  function FirstPartner(v: LabeledVerdict, rest: seq<LabeledVerdict>): (j: nat)
    ensures j <= |rest|
  {
    if rest == [] || DeltaOf(v, rest[0]).Some? then 0 else 1 + FirstPartner(v, rest[1..])
  }

  lemma {:induction false} FirstPartnerMeets(v: LabeledVerdict, rest: seq<LabeledVerdict>)
    ensures var j := FirstPartner(v, rest);
      && (j < |rest| ==> DeltaOf(v, rest[j]).Some?)
      && (forall k :: 0 <= k < j ==> DeltaOf(v, rest[k]) == None)
  {
    hide DeltaOf;
    if rest != [] {
      FirstPartnerMeets(v, rest[1..]);
    }
  }

  /** First verdict with the first partner it finds, and so on with those left over. */
  function Pairing(work: seq<LabeledVerdict>): (slots: seq<Slot>)
    decreases |work|
  {
    if work == [] then []
    else
      var v, rest := work[0], work[1..];
      var j := FirstPartner(v, rest);
      if j == |rest| then [Slot(v, None)] + Pairing(rest)
      else [Slot(v, Some(rest[j]))] + Pairing(rest[..j] + rest[j + 1..])
  }

  function Bases(slots: seq<Slot>): (r: seq<LabeledVerdict>)
    ensures |r| == |slots|
  {
    if slots == [] then [] else [slots[0].base] + Bases(slots[1..])
  }

  function Siblings(slots: seq<Slot>): seq<LabeledVerdict> {
    if slots == [] then []
    else (if slots[0].sibling.Some? then [slots[0].sibling.value] else []) + Siblings(slots[1..])
  }

  /** Every slot's sibling is one edit from its base. */
  ghost predicate Related(slots: seq<Slot>) {
    forall s :: s in slots && s.sibling.Some? ==> DeltaOf(s.base, s.sibling.value).Some?
  }

  function Deltas(slots: seq<Slot>): seq<DyadDelta>
    requires Related(slots)
  {
    if slots == [] then []
    else (if slots[0].sibling.Some? then [DeltaOf(slots[0].base, slots[0].sibling.value).value] else []) + Deltas(slots[1..])
  }

  function UnpairedIds(slots: seq<Slot>): seq<string> {
    if slots == [] then []
    else (if slots[0].sibling == None then [slots[0].base.id] else []) + UnpairedIds(slots[1..])
  }

  lemma {:induction false} PairingRelates(work: seq<LabeledVerdict>)
    ensures Related(Pairing(work))
    decreases |work|
  {
    hide DeltaOf;
    if work != [] {
      var rest := work[1..];
      var j := FirstPartner(work[0], rest);
      FirstPartnerMeets(work[0], rest);
      if j == |rest| {
        PairingRelates(rest);
      } else {
        PairingRelates(rest[..j] + rest[j + 1..]);
      }
    }
  }

  function Slots(verdicts: seq<LabeledVerdict>): seq<Slot> {
    Pairing(Sort(verdicts, ByVerdictId))
  }

  function Report(verdicts: seq<LabeledVerdict>): CompressionReport {
    var slots := Slots(verdicts);
    PairingRelates(Sort(verdicts, ByVerdictId));
    CompressionReport(|verdicts|, |slots|, Deltas(slots), Sort(UnpairedIds(slots), StringLE))
  }

  // ---- the loops with their flags ----

  /** What is still to be paired: the verdicts from `i` on that are not flagged. */
  function Left(work: seq<LabeledVerdict>, paired: seq<bool>, i: nat): seq<LabeledVerdict>
    requires |paired| == |work| && i <= |work|
    decreases |work| - i
  {
    if i == |work| then []
    else if paired[i] then Left(work, paired, i + 1)
    else [work[i]] + Left(work, paired, i + 1)
  }

  /** Number of unflagged verdicts in an interval. */
  function Unflagged(paired: seq<bool>, i: nat, j: nat): nat
    requires i <= j <= |paired|
    decreases j - i
  {
    if i == j then 0 else Unflagged(paired, i, j - 1) + if paired[j - 1] then 0 else 1
  }

  lemma {:induction false} UnflaggedFromFront(paired: seq<bool>, i: nat, j: nat)
    requires i < j <= |paired|
    ensures Unflagged(paired, i, j) == (if paired[i] then 0 else 1) + Unflagged(paired, i + 1, j)
    decreases j
  {
    if i + 1 < j {
      UnflaggedFromFront(paired, i, j - 1);
    }
  }

  lemma {:induction false} LeftAt(work: seq<LabeledVerdict>, paired: seq<bool>, i: nat, j: nat)
    requires |paired| == |work| && i <= j < |work| && !paired[j]
    ensures var k := Unflagged(paired, i, j); k < |Left(work, paired, i)| && Left(work, paired, i)[k] == work[j]
    decreases j - i
  {
    if i < j {
      LeftAt(work, paired, i + 1, j);
      UnflaggedFromFront(paired, i, j);
    }
  }

  lemma {:induction false} LeftLength(work: seq<LabeledVerdict>, paired: seq<bool>, i: nat)
    requires |paired| == |work| && i <= |work|
    ensures |Left(work, paired, i)| == Unflagged(paired, i, |work|)
    decreases |work| - i
  {
    if i < |work| {
      LeftLength(work, paired, i + 1);
      UnflaggedFromFront(paired, i, |work|);
    }
  }

  lemma {:induction false} LeftIgnoresEarlier(work: seq<LabeledVerdict>, p: seq<bool>, q: seq<bool>, i: nat)
    requires |p| == |q| == |work| && i <= |work| && forall k :: i <= k < |work| ==> p[k] == q[k]
    ensures Left(work, p, i) == Left(work, q, i)
    decreases |work| - i
  {
    if i < |work| {
      LeftIgnoresEarlier(work, p, q, i + 1);
    }
  }

  lemma ConsWithout<T>(x: T, l: seq<T>, k: nat)
    requires k < |l|
    ensures ([x] + l)[..k + 1] + ([x] + l)[k + 2..] == [x] + (l[..k] + l[k + 1..])
  {
  }

  /** Flagging a verdict takes it out of what is left. */
  lemma {:induction false} LeftFlagged(work: seq<LabeledVerdict>, paired: seq<bool>, i: nat, j: nat)
    requires |paired| == |work| && i <= j < |work| && !paired[j]
    ensures var k, l := Unflagged(paired, i, j), Left(work, paired, i);
      k < |l| && Left(work, paired[j := true], i) == l[..k] + l[k + 1..]
    decreases j - i
  {
    var flagged := paired[j := true];
    LeftAt(work, paired, i, j);
    if i == j {
      LeftIgnoresEarlier(work, paired, flagged, i + 1);
    } else {
      LeftFlagged(work, paired, i + 1, j);
      UnflaggedFromFront(paired, i, j);
      if !paired[i] {
        var l, k := Left(work, paired, i), Unflagged(paired, i, j);
        var l', k' := Left(work, paired, i + 1), Unflagged(paired, i + 1, j);
        ConsWithout(work[i], l', k');
      }
    }
  }

  lemma FirstPartnerIs(v: LabeledVerdict, rest: seq<LabeledVerdict>, j: nat)
    requires j <= |rest| && (forall k :: 0 <= k < j ==> DeltaOf(v, rest[k]) == None)
    requires j < |rest| ==> DeltaOf(v, rest[j]).Some?
    ensures FirstPartner(v, rest) == j
  {
    hide DeltaOf;
    FirstPartnerMeets(v, rest);
  }

  /** Scans later, unflagged verdicts for the first one an edit away. */
  method FindPartner(work: seq<LabeledVerdict>, attests: seq<Attestation>, paired: array<bool>, i: nat)
    returns (matched: int, delta: Option<DyadDelta>)
    requires |attests| == |work| == paired.Length && i < |work|
    requires forall k :: 0 <= k < |work| ==> attests[k] == AttestOf(work[k])
    ensures var left, j := Left(work, paired[..], i + 1), FirstPartner(work[i], Left(work, paired[..], i + 1));
      && (j == |left| ==> matched < 0 && delta == None)
      && (j < |left| ==>
            && i < matched < |work| && !paired[matched] && Unflagged(paired[..], i + 1, matched) == j
            && left[j] == work[matched] && delta == DeltaOf(work[i], work[matched]) && delta.Some?)
  {
    hide FirstPartner, BuildDelta, AttestOf, Left, Unflagged;
    ghost var left := Left(work, paired[..], i + 1);
    LeftLength(work, paired[..], i + 1);
    NothingScanned(paired[..], i + 1);
    for j := i + 1 to |work|
      invariant Unflagged(paired[..], i + 1, j) <= |left|
      invariant forall k :: 0 <= k < Unflagged(paired[..], i + 1, j) ==> DeltaOf(work[i], left[k]) == None
    {
      UnflaggedStep(paired[..], i + 1, j);
      if paired[j] {
        continue;
      }
      LeftAt(work, paired[..], i + 1, j);
      var d := BuildDyadDelta(work[i], attests[i], work[j], attests[j]);
      if d == None {
        continue;
      }
      FirstPartnerIs(work[i], left, Unflagged(paired[..], i + 1, j));
      return j, d;
    }
    FirstPartnerIs(work[i], left, |left|);
    return -1, None;
  }

  lemma NothingScanned(paired: seq<bool>, i: nat)
    requires i <= |paired|
    ensures Unflagged(paired, i, i) == 0
  {
  }

  lemma UnflaggedStep(paired: seq<bool>, i: nat, j: nat)
    requires i <= j < |paired|
    ensures Unflagged(paired, i, j + 1) == Unflagged(paired, i, j) + if paired[j] then 0 else 1
  {
  }

  /** What pairing the rest adds to what has been recorded so far. */
  ghost predicate Recorded(bases: seq<LabeledVerdict>, deltas: seq<DyadDelta>, unpaired: seq<string>, rest: seq<LabeledVerdict>, all: seq<Slot>)
    requires Related(all)
  {
    var slots := Pairing(rest);
    && Related(slots)
    && bases + Bases(slots) == Bases(all)
    && deltas + Deltas(slots) == Deltas(all)
    && unpaired + UnpairedIds(slots) == UnpairedIds(all)
  }

  lemma PairingUnfolds(rest: seq<LabeledVerdict>)
    requires rest != []
    ensures var slots, j := Pairing(rest), FirstPartner(rest[0], rest[1..]);
      && slots != [] && slots[0].base == rest[0] && Related(slots)
      && (j == |rest[1..]| ==> slots[0].sibling == None && slots[1..] == Pairing(rest[1..]))
      && (j < |rest[1..]| ==> slots[0].sibling == Some(rest[1..][j]) && slots[1..] == Pairing(rest[1..][..j] + rest[1..][j + 1..]))
  {
    hide FirstPartner, DeltaOf, Related;
    PairingRelates(rest);
  }

  lemma RecordUnpaired(bases: seq<LabeledVerdict>, deltas: seq<DyadDelta>, unpaired: seq<string>, rest: seq<LabeledVerdict>, all: seq<Slot>)
    requires Related(all) && rest != [] && Recorded(bases, deltas, unpaired, rest, all)
    requires FirstPartner(rest[0], rest[1..]) == |rest[1..]|
    ensures Recorded(bases + [rest[0]], deltas, unpaired + [rest[0].id], rest[1..], all)
  {
    hide FirstPartner, DeltaOf, Pairing, Bases, Deltas, UnpairedIds, Related;
    PairingUnfolds(rest);
    SlotUnfolds(Pairing(rest));
    Regroup(bases, rest[0], Bases(Pairing(rest[1..])));
    Regroup(unpaired, rest[0].id, UnpairedIds(Pairing(rest[1..])));
  }

  lemma RecordPaired(bases: seq<LabeledVerdict>, deltas: seq<DyadDelta>, unpaired: seq<string>, rest: seq<LabeledVerdict>, all: seq<Slot>, j: nat)
    requires Related(all) && rest != [] && Recorded(bases, deltas, unpaired, rest, all)
    requires j == FirstPartner(rest[0], rest[1..]) < |rest[1..]| && DeltaOf(rest[0], rest[1..][j]).Some?
    ensures Recorded(bases + [rest[0]], deltas + [DeltaOf(rest[0], rest[1..][j]).value], unpaired,
                     rest[1..][..j] + rest[1..][j + 1..], all)
  {
    hide FirstPartner, DeltaOf, Pairing, Bases, Deltas, UnpairedIds, Related;
    var rest' := rest[1..][..j] + rest[1..][j + 1..];
    PairingRelates(rest');
    PairingUnfolds(rest);
    SlotUnfolds(Pairing(rest));
    Regroup(bases, rest[0], Bases(Pairing(rest')));
    Regroup(deltas, DeltaOf(rest[0], rest[1..][j]).value, Deltas(Pairing(rest')));
  }

  lemma Regroup<T>(xs: seq<T>, y: T, zs: seq<T>)
    ensures xs + ([y] + zs) == (xs + [y]) + zs
  {
  }

  lemma SlotUnfolds(slots: seq<Slot>)
    requires slots != [] && Related(slots)
    ensures Related(slots[1..])
    ensures Bases(slots) == [slots[0].base] + Bases(slots[1..])
    ensures slots[0].sibling == None ==>
      Deltas(slots) == Deltas(slots[1..]) && UnpairedIds(slots) == [slots[0].base.id] + UnpairedIds(slots[1..])
    ensures slots[0].sibling.Some? ==>
      UnpairedIds(slots) == UnpairedIds(slots[1..])
      && Deltas(slots) == [DeltaOf(slots[0].base, slots[0].sibling.value).value] + Deltas(slots[1..])
  {
    hide DeltaOf;
  }

  method PrecomputeAttestations(work: seq<LabeledVerdict>) returns (attests: seq<Attestation>)
    ensures |attests| == |work| && forall k :: 0 <= k < |work| ==> attests[k] == AttestOf(work[k])
  {
    hide Attest;
    attests := [];
    for i := 0 to |work|
      invariant |attests| == i && forall k :: 0 <= k < i ==> attests[k] == AttestOf(work[k])
    {
      var att := MerkleAttestWithConfig(work[i].views.graph, true);
      attests := attests + [att];
    }
  }

  method DyadCompress(verdicts: seq<LabeledVerdict>) returns (bases: seq<LabeledVerdict>, report: CompressionReport)
    ensures bases == Bases(Slots(verdicts)) && report == Report(verdicts)
  {
    hide Pairing, Bases, Deltas, UnpairedIds, Recorded, FirstPartner, Left, Unflagged, DeltaOf, AttestOf, Related, ByVerdictId, StringLE;
    var work := Sort(verdicts, ByVerdictId);
    ghost var all := Pairing(work);
    PairingRelates(work);
    if |verdicts| < 2 {
      bases := verdicts;
      var unpaired: seq<string> := [];
      for i := 0 to |verdicts|
        invariant unpaired == seq(i, k requires 0 <= k < i <= |verdicts| => verdicts[k].id)
      {
        unpaired := unpaired + [verdicts[i].id];
      }
      FewVerdicts(verdicts);
      report := CompressionReport(|verdicts|, |verdicts|, [], Sort(unpaired, StringLE));
      return;
    }
    var attests := PrecomputeAttestations(work);
    var paired := new bool[|work|](_ => false);
    bases := [];
    var deltas: seq<DyadDelta>, unpaired: seq<string> := [], [];
    NothingFlagged(work, paired[..]);
    NothingRecorded(work, all);
    for i := 0 to |work|
      invariant Recorded(bases, deltas, unpaired, Left(work, paired[..], i), all)
    {
      LeftStep(work, paired[..], i);
      if paired[i] {
        continue;
      }
      var matched, bestDelta := FindPartner(work, attests, paired, i);
      bases := bases + [work[i]];
      if matched < 0 {
        RecordUnpaired(bases[..|bases| - 1], deltas, unpaired, Left(work, paired[..], i), all);
        unpaired := unpaired + [work[i].id];
        continue;
      }
      RecordPaired(bases[..|bases| - 1], deltas, unpaired, Left(work, paired[..], i), all, Unflagged(paired[..], i + 1, matched));
      LeftFlagged(work, paired[..], i + 1, matched);
      ghost var before := paired[..];
      paired[i] := true;
      paired[matched] := true;
      LeftIgnoresEarlier(work, before[matched := true], paired[..], i + 1);
      deltas := deltas + [bestDelta.value];
    }
    EverythingRecorded(bases, deltas, unpaired, work, paired[..], all);
    report := CompressionReport(|verdicts|, |bases|, deltas, Sort(unpaired, StringLE));
  }

  lemma FewVerdicts(verdicts: seq<LabeledVerdict>)
    requires |verdicts| < 2
    ensures Related(Slots(verdicts))
    ensures Bases(Slots(verdicts)) == verdicts && Deltas(Slots(verdicts)) == [] && |Slots(verdicts)| == |verdicts|
    ensures UnpairedIds(Slots(verdicts)) == seq(|verdicts|, k requires 0 <= k < |verdicts| => verdicts[k].id)
  {
    PairingRelates(Sort(verdicts, ByVerdictId));
    hide DeltaOf;
    if |verdicts| == 1 {
      assert Sort(verdicts, ByVerdictId) == verdicts;
      assert verdicts[1..] == [];
      assert Slots(verdicts) == [Slot(verdicts[0], None)];
    }
  }

  lemma NothingRecorded(work: seq<LabeledVerdict>, all: seq<Slot>)
    requires all == Pairing(work) && Related(all)
    ensures Recorded([], [], [], work, all)
  {
    hide Pairing, Related;
  }

  lemma {:induction false} NothingFlaggedFrom(work: seq<LabeledVerdict>, paired: seq<bool>, i: nat)
    requires |paired| == |work| && i <= |work| && forall k :: 0 <= k < |work| ==> !paired[k]
    ensures Left(work, paired, i) == work[i..]
    decreases |work| - i
  {
    if i < |work| {
      NothingFlaggedFrom(work, paired, i + 1);
    }
  }

  lemma NothingFlagged(work: seq<LabeledVerdict>, paired: seq<bool>)
    requires |paired| == |work| && forall k :: 0 <= k < |work| ==> !paired[k]
    ensures Left(work, paired, 0) == work
  {
    NothingFlaggedFrom(work, paired, 0);
  }

  lemma LeftStep(work: seq<LabeledVerdict>, paired: seq<bool>, i: nat)
    requires |paired| == |work| && i < |work|
    ensures if paired[i] then Left(work, paired, i) == Left(work, paired, i + 1)
            else Left(work, paired, i) != [] && Left(work, paired, i)[0] == work[i] && Left(work, paired, i)[1..] == Left(work, paired, i + 1)
  {
  }

  lemma EverythingRecorded(bases: seq<LabeledVerdict>, deltas: seq<DyadDelta>, unpaired: seq<string>, work: seq<LabeledVerdict>, paired: seq<bool>, all: seq<Slot>)
    requires |paired| == |work| && Related(all) && Recorded(bases, deltas, unpaired, Left(work, paired, |work|), all)
    ensures bases == Bases(all) && deltas == Deltas(all) && unpaired == UnpairedIds(all)
  {
    hide Pairing, Bases, Deltas, UnpairedIds, Related, DeltaOf;
    assert Left(work, paired, |work|) == [];
    NoSlots();
    assert bases + [] == bases && deltas + [] == deltas && unpaired + [] == unpaired;
  }

  lemma NoSlots()
    ensures Pairing([]) == [] && Related([]) && Bases([]) == [] && Deltas([]) == [] && UnpairedIds([]) == []
  {
  }
}
