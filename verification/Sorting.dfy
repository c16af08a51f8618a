/** Stable sorting, the contract of Go's `sort.SliceStable`, `sort.Slice` and
    `sort.Strings`, which the repository calls but does not define. */
module Sorting {

  /** `le` is a total preorder: what a `less` function must induce for a sort to be meaningful. */
  ghost predicate TotalPreorder<T(!new)>(le: (T, T) -> bool) {
    && (forall x, y :: le(x, y) || le(y, x))
    && (forall x, y, z :: le(x, y) && le(y, z) ==> le(x, z))
  }

  ghost predicate Antisymmetric<T(!new)>(le: (T, T) -> bool) {
    forall x, y :: le(x, y) && le(y, x) ==> x == y
  }

  ghost predicate Sorted<T(!new)>(s: seq<T>, le: (T, T) -> bool) {
    forall i, j :: 0 <= i < j < |s| ==> le(s[i], s[j])
  }

  /** Places `x` before every element it is not greater than. */
  function Insert<T>(x: T, s: seq<T>, le: (T, T) -> bool): (r: seq<T>)
    ensures |r| == |s| + 1
  {
    if s == [] || le(x, s[0]) then [x] + s else [s[0]] + Insert(x, s[1..], le)
  }

  /** Stable insertion sort. */
  function Sort<T>(s: seq<T>, le: (T, T) -> bool): (r: seq<T>)
    ensures |r| == |s|
  {
    if s == [] then [] else Insert(s[0], Sort(s[1..], le), le)
  }

  lemma {:induction false} InsertPermutes<T>(x: T, s: seq<T>, le: (T, T) -> bool)
    ensures multiset(Insert(x, s, le)) == multiset(s) + multiset{x}
  {
    if s == [] || le(x, s[0]) {
    } else {
      InsertPermutes(x, s[1..], le);
      assert s == [s[0]] + s[1..];
    }
  }

  lemma {:induction false} SortPermutes<T>(s: seq<T>, le: (T, T) -> bool)
    ensures multiset(Sort(s, le)) == multiset(s)
  {
    if s == [] {
    } else {
      SortPermutes(s[1..], le);
      InsertPermutes(s[0], Sort(s[1..], le), le);
      assert s == [s[0]] + s[1..];
    }
  }

  lemma SortKeepsMember<T>(s: seq<T>, le: (T, T) -> bool, x: T)
    ensures x in Sort(s, le) <==> x in s
  {
    SortPermutes(s, le);
    assert x in Sort(s, le) <==> x in multiset(Sort(s, le));
    assert x in s <==> x in multiset(s);
  }

  lemma {:induction false} InsertSorted<T(!new)>(x: T, s: seq<T>, le: (T, T) -> bool)
    requires TotalPreorder(le) && Sorted(s, le)
    ensures Sorted(Insert(x, s, le), le)
  {
    if s == [] || le(x, s[0]) {
      assert forall k :: 0 <= k < |s| ==> le(x, s[k]);
    } else {
      InsertSorted(x, s[1..], le);
      InsertPermutes(x, s[1..], le);
      var t := Insert(x, s[1..], le);
      forall k | 0 <= k < |t| ensures le(s[0], t[k]) {
        assert t[k] in multiset(t);
        assert t[k] == x || t[k] in s[1..];
      }
    }
  }

  lemma {:induction false} SortSorts<T(!new)>(s: seq<T>, le: (T, T) -> bool)
    requires TotalPreorder(le)
    ensures Sorted(Sort(s, le), le)
  {
    if s == [] {
    } else {
      SortSorts(s[1..], le);
      InsertSorted(s[0], Sort(s[1..], le), le);
    }
  }

  /** A sorted sequence is left alone, ties included: the sort is stable. */
  lemma {:induction false} SortIsIdentityOnSorted<T(!new)>(s: seq<T>, le: (T, T) -> bool)
    requires Sorted(s, le)
    ensures Sort(s, le) == s
  {
    if s == [] {
    } else {
      SortIsIdentityOnSorted(s[1..], le);
      assert s == [s[0]] + s[1..];
    }
  }

  lemma HeadsAgree<T(!new)>(s: seq<T>, t: seq<T>, le: (T, T) -> bool)
    requires Antisymmetric(le) && Sorted(s, le) && Sorted(t, le)
    requires s != [] && t != [] && s[0] in t && t[0] in s
    ensures s[0] == t[0]
  {
    var j :| 0 <= j < |t| && t[j] == s[0];
    var k :| 0 <= k < |s| && s[k] == t[0];
    if j != 0 && k != 0 {
      assert le(t[0], t[j]) && le(s[0], s[k]);
    }
  }

  lemma DropEqualHeads<T>(s: seq<T>, t: seq<T>)
    requires s != [] && t != [] && s[0] == t[0] && multiset(s) == multiset(t)
    ensures multiset(s[1..]) == multiset(t[1..])
  {
    DropHead(s);
    DropHead(t);
  }

  lemma DropHead<T>(s: seq<T>)
    requires s != []
    ensures multiset(s[1..]) == multiset(s) - multiset{s[0]}
  {
    RemoveOne(s, 0);
    assert s[..0] + s[1..] == s[1..];
  }

  lemma SameMembers<T>(s: seq<T>, t: seq<T>, k: nat)
    requires multiset(s) == multiset(t) && k < |s|
    ensures s[k] in t
  {
    assert s[k] in multiset(s);
    assert s[k] in multiset(t);
  }

  lemma SameLength<T>(s: seq<T>, t: seq<T>)
    requires multiset(s) == multiset(t)
    ensures |s| == |t|
  {
    assert |s| == |multiset(s)| == |multiset(t)| == |t|;
  }

  lemma TailSorted<T(!new)>(s: seq<T>, le: (T, T) -> bool)
    requires s != [] && Sorted(s, le)
    ensures Sorted(s[1..], le)
  {
  }

  /** Two sorted arrangements of one multiset agree under an antisymmetric order. */
  lemma {:induction false} SortedIsCanonical<T(!new)>(s: seq<T>, t: seq<T>, le: (T, T) -> bool)
    requires Antisymmetric(le)
    requires Sorted(s, le) && Sorted(t, le) && multiset(s) == multiset(t)
    ensures s == t
    decreases |s|
  {
    hide Sorted, Antisymmetric;
    SameLength(s, t);
    if s != [] {
      SameMembers(s, t, 0);
      SameMembers(t, s, 0);
      HeadsAgree(s, t, le);
      DropEqualHeads(s, t);
      TailSorted(s, le);
      TailSorted(t, le);
      SortedIsCanonical(s[1..], t[1..], le);
      assert s == [s[0]] + s[1..] && t == [t[0]] + t[1..];
    }
  }

  /** The order of the input is forgotten. */
  lemma SortForgetsOrder<T(!new)>(s: seq<T>, t: seq<T>, le: (T, T) -> bool)
    requires TotalPreorder(le) && Antisymmetric(le)
    requires multiset(s) == multiset(t)
    ensures Sort(s, le) == Sort(t, le)
  {
    SortSorts(s, le);
    SortSorts(t, le);
    SortPermutes(s, le);
    SortPermutes(t, le);
    SortedIsCanonical(Sort(s, le), Sort(t, le), le);
  }

  function Map<A, B>(f: A -> B, s: seq<A>): (r: seq<B>)
    ensures |r| == |s|
    ensures forall i :: 0 <= i < |s| ==> r[i] == f(s[i])
  {
    seq(|s|, i requires 0 <= i < |s| => f(s[i]))
  }

  lemma {:induction false} InsertCommutesWithMap<A, B>(f: A -> B, x: A, s: seq<A>, le: (A, A) -> bool, le': (B, B) -> bool)
    requires forall y :: y in s ==> (le(x, y) <==> le'(f(x), f(y)))
    ensures Insert(f(x), Map(f, s), le') == Map(f, Insert(x, s, le))
  {
    if s == [] {
    } else if le(x, s[0]) {
      assert Map(f, [x] + s) == [f(x)] + Map(f, s);
    } else {
      InsertCommutesWithMap(f, x, s[1..], le, le');
      assert Map(f, s)[1..] == Map(f, s[1..]);
      assert Map(f, [s[0]] + Insert(x, s[1..], le)) == [f(s[0])] + Map(f, Insert(x, s[1..], le));
    }
  }

  /** Sorting sees its elements only through comparisons: a map that keeps every
      comparison commutes with the sort. */
  lemma {:induction false} SortCommutesWithMap<A, B>(f: A -> B, s: seq<A>, le: (A, A) -> bool, le': (B, B) -> bool)
    requires forall x, y :: x in s && y in s ==> (le(x, y) <==> le'(f(x), f(y)))
    ensures Sort(Map(f, s), le') == Map(f, Sort(s, le))
  {
    if s == [] {
    } else {
      SortCommutesWithMap(f, s[1..], le, le');
      forall y | y in Sort(s[1..], le) ensures le(s[0], y) <==> le'(f(s[0]), f(y)) {
        SortKeepsMember(s[1..], le, y);
      }
      InsertCommutesWithMap(f, s[0], Sort(s[1..], le), le, le');
      assert Map(f, s)[1..] == Map(f, s[1..]);
    }
  }

  lemma MapOfConcat<A, B>(f: A -> B, s: seq<A>, t: seq<A>)
    ensures Map(f, s + t) == Map(f, s) + Map(f, t)
  {
  }

  lemma RemoveOne<T>(t: seq<T>, j: nat)
    requires j < |t|
    ensures multiset(t[..j] + t[j+1..]) == multiset(t) - multiset{t[j]}
  {
    assert t == t[..j] + [t[j]] + t[j+1..];
  }

  lemma MapRemoveOne<A, B>(f: A -> B, t: seq<A>, j: nat)
    requires j < |t|
    ensures multiset(Map(f, t)) == multiset(Map(f, t[..j] + t[j+1..])) + multiset{f(t[j])}
  {
    var m := Map(f, t);
    assert Map(f, t[..j] + t[j+1..]) == m[..j] + m[j+1..];
    RemoveOne(m, j);
    assert m[j] in multiset(m);
  }

  lemma Occurrence<T>(t: seq<T>, x: T) returns (j: nat)
    requires x in t
    ensures j < |t| && t[j] == x
  {
    j :| 0 <= j < |t| && t[j] == x;
  }

  lemma RemoveSame<T>(s: seq<T>, i: nat, t: seq<T>, j: nat)
    requires multiset(s) == multiset(t)
    requires i < |s| && j < |t| && s[i] == t[j]
    ensures multiset(s[..i] + s[i+1..]) == multiset(t[..j] + t[j+1..])
  {
    RemoveOne(s, i);
    RemoveOne(t, j);
  }

  /** A multiset of images depends only on the multiset of arguments. */
  lemma {:induction false} MapOfPermutation<A, B>(f: A -> B, s: seq<A>, t: seq<A>)
    requires multiset(s) == multiset(t)
    ensures multiset(Map(f, s)) == multiset(Map(f, t))
    decreases |s|
  {
    hide Map;
    SameLength(s, t);
    if s == [] {
    } else {
      SameMembers(s, t, 0);
      var j := Occurrence(t, s[0]);
      RemoveSame(s, 0, t, j);
      MapOfPermutation(f, s[..0] + s[1..], t[..j] + t[j+1..]);
      MapRemoveOne(f, t, j);
      MapRemoveOne(f, s, 0);
    }
  }

  ghost predicate Distinct<T(!new)>(s: seq<T>) {
    forall i, j :: 0 <= i < j < |s| ==> s[i] != s[j]
  }

  lemma {:induction false} DistinctMultiplicity<T(!new)>(s: seq<T>, x: T)
    requires Distinct(s)
    ensures multiset(s)[x] == if x in s then 1 else 0
  {
    if s == [] {
    } else {
      DistinctMultiplicity(s[1..], x);
      assert s == [s[0]] + s[1..];
    }
  }

  lemma RepeatedMultiplicity<T>(t: seq<T>, i: nat, j: nat)
    requires i < j < |t| && t[i] == t[j]
    ensures multiset(t)[t[i]] >= 2
  {
    assert t == t[..j] + [t[j]] + t[j+1..];
    assert t[i] in t[..j];
  }

  lemma DistinctPermutation<T(!new)>(s: seq<T>, t: seq<T>)
    requires multiset(s) == multiset(t) && Distinct(s)
    ensures Distinct(t)
  {
    forall i, j | 0 <= i < j < |t| ensures t[i] != t[j] {
      DistinctMultiplicity(s, t[i]);
      if t[i] == t[j] {
        RepeatedMultiplicity(t, i, j);
      }
    }
  }

  lemma {:induction false} DistinctSameSet<T(!new)>(s: seq<T>, t: seq<T>)
    requires Distinct(s) && Distinct(t)
    requires forall x :: x in s <==> x in t
    ensures multiset(s) == multiset(t)
  {
    forall x ensures multiset(s)[x] == multiset(t)[x] {
      DistinctMultiplicity(s, x);
      DistinctMultiplicity(t, x);
    }
  }
}
