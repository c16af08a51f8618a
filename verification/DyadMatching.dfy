/** Compression is a maximal matching that loses nothing (speculative_dyad.go). */
module DyadMatching {
  import opened Sorting
  import opened Text
  import opened Causal
  import opened Merkle
  import opened Dyad
  import opened DyadRoundTrip
  import opened DyadPairs

  // ---- nothing lost, nothing doubled ----

  lemma SplitOff(work: seq<LabeledVerdict>, j: nat)
    requires work != [] && j < |work[1..]|
    ensures multiset(work) == multiset{work[0]} + multiset{work[1..][j]} + multiset(work[1..][..j] + work[1..][j + 1..])
  {
    var rest := work[1..];
    assert work == [work[0]] + rest;
    assert rest == rest[..j] + [rest[j]] + rest[j + 1..];
  }

  lemma SlotMembers(slots: seq<Slot>)
    requires slots != []
    ensures multiset(Bases(slots)) == multiset{slots[0].base} + multiset(Bases(slots[1..]))
    ensures multiset(Siblings(slots))
         == (if slots[0].sibling.Some? then multiset{slots[0].sibling.value} else multiset{}) + multiset(Siblings(slots[1..]))
  {
  }

  lemma {:induction false} PairingConserves(work: seq<LabeledVerdict>)
    ensures multiset(work) == multiset(Bases(Pairing(work))) + multiset(Siblings(Pairing(work)))
    decreases |work|
  {
    hide Bases, Siblings, DeltaOf, FirstPartner, Pairing, Related;
    if work == [] {
      EmptyPairing();
    } else {
      var j := FirstPartner(work[0], work[1..]);
      PairingUnfolds(work);
      SlotMembers(Pairing(work));
      if j == |work[1..]| {
        PairingConserves(work[1..]);
        assert work == [work[0]] + work[1..];
      } else {
        PairingConserves(work[1..][..j] + work[1..][j + 1..]);
        SplitOff(work, j);
      }
    }
  }

  lemma EmptyPairing()
    ensures Pairing([]) == [] && Bases([]) == [] && Siblings([]) == []
  {
  }

  lemma {:induction false} OneDeltaPerSibling(slots: seq<Slot>)
    requires Related(slots)
    ensures |Deltas(slots)| == |Siblings(slots)|
  {
    hide DeltaOf;
    if slots != [] {
      OneDeltaPerSibling(slots[1..]);
    }
  }

  /** Every verdict is exactly once a base or the sibling of a delta, so the slots before are
      the slots after plus the deltas. */
  lemma CompressionConserves(verdicts: seq<LabeledVerdict>)
    ensures multiset(verdicts) == multiset(Bases(Slots(verdicts))) + multiset(Siblings(Slots(verdicts)))
    ensures var r := Report(verdicts);
      r.slotsBefore == r.slotsAfter + |r.deltas| && |r.deltas| == |Siblings(Slots(verdicts))|
  {
    hide Bases, Siblings, DeltaOf, Pairing, Related, Deltas, UnpairedIds;
    var work := Sort(verdicts, ByVerdictId);
    SortPermutes(verdicts, ByVerdictId);
    PairingConserves(work);
    PairingRelates(work);
    OneDeltaPerSibling(Pairing(work));
    hide Sort, Slots;
    assert |multiset(verdicts)| == |multiset(Bases(Slots(verdicts)))| + |multiset(Siblings(Slots(verdicts)))|;
  }

  // ---- no pair is overlooked ----

  /** Whether two verdicts are one edit apart does not depend on which is the base. */
  lemma DeltaIsSymmetric(a: LabeledVerdict, b: LabeledVerdict)
    ensures DeltaOf(a, b).Some? <==> DeltaOf(b, a).Some?
    ensures DeltaOf(a, b).Some? <==> HammingOne(NodesOf(a.views.graph), NodesOf(b.views.graph))
  {
    hide DeltaOf, LeafSet, NodeForLeaf, TheOnly;
    DeltaShape(a, b);
    DeltaShape(b, a);
  }

  lemma {:induction false} BasesAreFromWork(work: seq<LabeledVerdict>, s: Slot)
    requires s in Pairing(work)
    ensures s.base in work
    decreases |work|
  {
    hide DeltaOf, FirstPartner;
    if s != Pairing(work)[0] {
      var rest := work[1..];
      var j := FirstPartner(work[0], rest);
      if j == |rest| {
        BasesAreFromWork(rest, s);
      } else {
        BasesAreFromWork(rest[..j] + rest[j + 1..], s);
      }
    }
  }

  lemma {:induction false} PairingIsMaximal(work: seq<LabeledVerdict>, i: nat, j: nat)
    requires i < j < |Pairing(work)| && Pairing(work)[i].sibling == None
    ensures DeltaOf(Pairing(work)[i].base, Pairing(work)[j].base) == None
    decreases |work|
  {
    hide DeltaOf, FirstPartner, Pairing, Related;
    EmptyPairing();
    var slots, rest := Pairing(work), work[1..];
    PairingUnfolds(work);
    var p := FirstPartner(work[0], rest);
    if p < |rest| {
      PairingIsMaximal(rest[..p] + rest[p + 1..], i - 1, j - 1);
    } else if i > 0 {
      PairingIsMaximal(rest, i - 1, j - 1);
    } else {
      assert slots[j] == slots[1..][j - 1];
      BasesAreFromWork(rest, slots[j]);
      var k :| 0 <= k < |rest| && rest[k] == slots[j].base;
      FirstPartnerMeets(work[0], rest);
    }
  }

  /** No two verdicts left unpaired are one edit apart, in either direction. */
  lemma UnpairedAreUnrelated(verdicts: seq<LabeledVerdict>, i: nat, j: nat)
    requires i < |Slots(verdicts)| && j < |Slots(verdicts)| && i != j
    requires Slots(verdicts)[i].sibling == None && Slots(verdicts)[j].sibling == None
    ensures !HammingOne(NodesOf(Slots(verdicts)[i].base.views.graph), NodesOf(Slots(verdicts)[j].base.views.graph))
  {
    hide Pairing, DeltaOf, HammingOne, Sort;
    var work := Sort(verdicts, ByVerdictId);
    if i < j {
      PairingIsMaximal(work, i, j);
    } else {
      PairingIsMaximal(work, j, i);
    }
    DeltaIsSymmetric(Pairing(work)[i].base, Pairing(work)[j].base);
  }

  lemma {:induction false} UnpairedIdsAre(slots: seq<Slot>, id: string)
    ensures id in UnpairedIds(slots) <==> exists s :: s in slots && s.sibling == None && s.base.id == id
  {
    if slots != [] {
      UnpairedIdsAre(slots[1..], id);
      assert slots == [slots[0]] + slots[1..];
    }
  }

  function Unpaired(slots: seq<Slot>): seq<LabeledVerdict> {
    if slots == [] then []
    else if slots[0].sibling == None then [slots[0].base] + Unpaired(slots[1..]) else Unpaired(slots[1..])
  }

  lemma {:induction false} SlotsAreTold(slots: seq<Slot>)
    requires Related(slots)
    ensures |UnpairedIds(slots)| == |Unpaired(slots)| == |slots| - |Deltas(slots)|
    ensures forall i :: 0 <= i < |Unpaired(slots)| ==> UnpairedIds(slots)[i] == Unpaired(slots)[i].id
  {
    hide DeltaOf;
    if slots != [] {
      SlotsAreTold(slots[1..]);
    }
  }

  /** Every slot is told of exactly once: by its delta, or by its base's identifier. */
  lemma ReportTellsEverySlot(verdicts: seq<LabeledVerdict>)
    ensures var r := Report(verdicts);
      && |r.deltas| + |r.unpairedIds| == r.slotsAfter
      && multiset(r.unpairedIds) == multiset(Map(IdOf(), Unpaired(Slots(verdicts))))
  {
    hide Slots, Deltas, UnpairedIds, Related, Unpaired, StringLE, Sort;
    var slots := Slots(verdicts);
    SlotsRelated(verdicts);
    SlotsAreTold(slots);
    SortPermutes(UnpairedIds(slots), StringLE);
    assert UnpairedIds(slots) == Map(IdOf(), Unpaired(slots));
  }

  function IdOf(): LabeledVerdict -> string {
    (v: LabeledVerdict) => v.id
  }

  lemma SlotsRelated(verdicts: seq<LabeledVerdict>)
    ensures Related(Slots(verdicts))
  {
    hide Pairing, Related, Sort;
    PairingRelates(Sort(verdicts, ByVerdictId));
  }

  /** The reported identifiers are those of the bases without a delta. */
  lemma ReportedUnpaired(verdicts: seq<LabeledVerdict>, id: string)
    ensures id in Report(verdicts).unpairedIds <==> exists s :: s in Slots(verdicts) && s.sibling == None && s.base.id == id
  {
    hide Slots, Deltas, UnpairedIds, Related;
    SortKeepsMember(UnpairedIds(Slots(verdicts)), StringLE, id);
    UnpairedIdsAre(Slots(verdicts), id);
  }

  // ---- and what was folded away comes back ----

  /** What identifies a verdict's structure. */
  function Label(v: LabeledVerdict): (string, Digest) {
    (v.id, AttestOf(v).root)
  }

  /** Each delta applied to its base; nothing when it does not apply. */
  function Rehydrated(env: Env, slots: seq<Slot>): seq<LabeledVerdict> {
    if slots == [] then []
    else
      var s, rest := slots[0], Rehydrated(env, slots[1..]);
      if s.sibling == None || DeltaOf(s.base, s.sibling.value) == None then rest
      else
        match Hydrate(env, s.base, DeltaOf(s.base, s.sibling.value).value)
        case Err(_) => rest
        case Ok(v) => [v] + rest
  }

  ghost predicate ProperVerdict(v: LabeledVerdict) {
    Proper(NodesOf(v.views.graph))
  }

  /** Every recorded mutation is of the kind a delta can carry. */
  ghost predicate AllCarried(slots: seq<Slot>) {
    forall s :: s in slots && s.sibling.Some? && DeltaOf(s.base, s.sibling.value).Some? ==>
      CarriedByDelta(NodesOf(s.base.views.graph), NodesOf(s.sibling.value.views.graph), DeltaOf(s.base, s.sibling.value).value)
  }

  lemma HydratedLabel(env: Env, base: LabeledVerdict, sib: LabeledVerdict)
    requires ProperVerdict(base) && ProperVerdict(sib) && DeltaOf(base, sib).Some?
    requires CarriedByDelta(NodesOf(base.views.graph), NodesOf(sib.views.graph), DeltaOf(base, sib).value)
    ensures var r := Hydrate(env, base, DeltaOf(base, sib).value); r.Ok? && Label(r.value) == Label(sib)
  {
    hide DeltaOf, Hydrate, CarriedByDelta, Proper, AttestOf;
    HydrateInvertsDelta(env, base, sib);
  }

  lemma {:induction false} RehydrationRecovers(env: Env, slots: seq<Slot>)
    requires Related(slots) && AllCarried(slots)
    requires forall s :: s in slots ==> ProperVerdict(s.base) && (s.sibling.Some? ==> ProperVerdict(s.sibling.value))
    ensures Map(Label, Rehydrated(env, slots)) == Map(Label, Siblings(slots))
  {
    hide DeltaOf, Hydrate, CarriedByDelta, ProperVerdict, Label;
    if slots != [] {
      RehydrationRecovers(env, slots[1..]);
      var s := slots[0];
      if s.sibling.Some? {
        HydratedLabel(env, s.base, s.sibling.value);
        var v := Hydrate(env, s.base, DeltaOf(s.base, s.sibling.value).value).value;
        MapOfConcat(Label, [v], Rehydrated(env, slots[1..]));
        MapOfConcat(Label, [s.sibling.value], Siblings(slots[1..]));
        assert Map(Label, [v]) == Map(Label, [s.sibling.value]);
      }
    }
  }

  lemma SlotsAreProper(verdicts: seq<LabeledVerdict>)
    requires forall v :: v in verdicts ==> ProperVerdict(v)
    ensures forall s :: s in Slots(verdicts) ==> ProperVerdict(s.base) && (s.sibling.Some? ==> ProperVerdict(s.sibling.value))
  {
    hide ProperVerdict, Slots;
    CompressionConserves(verdicts);
    forall s | s in Slots(verdicts) ensures s.base in verdicts && (s.sibling.Some? ==> s.sibling.value in verdicts) {
      SlotContents(Slots(verdicts), s);
      FromConserved(verdicts, Bases(Slots(verdicts)), Siblings(Slots(verdicts)), s.base);
      if s.sibling.Some? {
        FromConserved(verdicts, Bases(Slots(verdicts)), Siblings(Slots(verdicts)), s.sibling.value);
      }
    }
  }

  lemma FromConserved(all: seq<LabeledVerdict>, xs: seq<LabeledVerdict>, ys: seq<LabeledVerdict>, v: LabeledVerdict)
    requires multiset(all) == multiset(xs) + multiset(ys) && (v in xs || v in ys)
    ensures v in all
  {
    assert v in multiset(all);
  }

  lemma {:induction false} SlotContents(slots: seq<Slot>, s: Slot)
    requires s in slots
    ensures s.base in Bases(slots) && (s.sibling.Some? ==> s.sibling.value in Siblings(slots))
  {
    if s != slots[0] {
      assert s in slots[1..];
      SlotContents(slots[1..], s);
    }
  }

  /** End to end: the stored bases together with the rehydrated siblings have the identifiers
      and roots of the verdicts that were compressed. */
  lemma CompressionRecovers(env: Env, verdicts: seq<LabeledVerdict>)
    requires forall v :: v in verdicts ==> ProperVerdict(v)
    requires AllCarried(Slots(verdicts))
    ensures multiset(Map(Label, verdicts))
         == multiset(Map(Label, Bases(Slots(verdicts)) + Rehydrated(env, Slots(verdicts))))
  {
    hide Bases, Siblings, Rehydrated, Label, ProperVerdict, AllCarried, Related, Pairing, Sort;
    var slots := Slots(verdicts);
    CompressionConserves(verdicts);
    PairingRelates(Sort(verdicts, ByVerdictId));
    SlotsAreProper(verdicts);
    hide Slots;
    RehydrationRecovers(env, slots);
    assert multiset(Bases(slots) + Siblings(slots)) == multiset(verdicts);
    MapOfPermutation(Label, verdicts, Bases(slots) + Siblings(slots));
    MapOfConcat(Label, Bases(slots), Siblings(slots));
    MapOfConcat(Label, Bases(slots), Rehydrated(env, slots));
  }
}
