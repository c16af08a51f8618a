/** A map's keys come out in no particular order, so the program collects and sorts them. */
module SortedSets {
  import opened Sorting

  /** The members of a set in ascending order. */
  function Ascending<T(==, !new)>(s: set<T>, le: (T, T) -> bool): (r: seq<T>)
    requires TotalPreorder(le) && Antisymmetric(le)
    ensures |r| == |s|
    ensures forall x :: x in r <==> x in s
    decreases |s|
  {
    if s == {} then []
    else
      LeastExists(s, le);
      var m :| m in s && forall y :: y in s ==> le(m, y);
      [m] + Ascending(s - {m}, le)
  }

  lemma {:induction false} LeastExists<T(!new)>(s: set<T>, le: (T, T) -> bool)
    requires s != {}
    requires TotalPreorder(le)
    ensures exists m :: m in s && forall y :: y in s ==> le(m, y)
    decreases |s|
  {
    var x :| x in s;
    var rest := s - {x};
    if rest == {} {
      assert s == {x} && le(x, x);
    } else {
      LeastExists(rest, le);
      var m :| m in rest && forall y :: y in rest ==> le(m, y);
      var least := if le(m, x) then m else x;
      assert least in s && le(x, x);
      forall y | y in s ensures le(least, y) {
        assert y == x || (y in rest && le(m, y));
      }
    }
  }

  lemma PrependLeast<T(!new)>(m: T, r: seq<T>, le: (T, T) -> bool)
    requires Sorted(r, le) && Distinct(r)
    requires m !in r && forall y :: y in r ==> le(m, y)
    ensures Sorted([m] + r, le) && Distinct([m] + r)
  {
    assert forall j :: 0 <= j < |r| ==> r[j] in r;
  }

  lemma PushDistinct<T(!new)>(r: seq<T>, x: T)
    requires Distinct(r) && x !in r
    ensures Distinct(r + [x])
  {
    assert forall j :: 0 <= j < |r| ==> r[j] in r;
  }

  lemma {:induction false} AscendingSorted<T(!new)>(s: set<T>, le: (T, T) -> bool)
    requires TotalPreorder(le) && Antisymmetric(le)
    ensures Sorted(Ascending(s, le), le) && Distinct(Ascending(s, le))
    decreases |s|
  {
    if s != {} {
      hide Sorted, Distinct, TotalPreorder, Antisymmetric;
      LeastExists(s, le);
      var m :| m in s && (forall y :: y in s ==> le(m, y)) && Ascending(s, le) == [m] + Ascending(s - {m}, le);
      AscendingSorted(s - {m}, le);
      PrependLeast(m, Ascending(s - {m}, le), le);
    } else {
      assert Ascending(s, le) == [];
    }
  }

  /** However the members were collected, sorting gives the one ascending list. */
  lemma SortedCollection<T(!new)>(collected: seq<T>, s: set<T>, le: (T, T) -> bool)
    requires TotalPreorder(le) && Antisymmetric(le)
    requires Distinct(collected) && forall x :: x in collected <==> x in s
    ensures Sort(collected, le) == Ascending(s, le)
  {
    hide Sorted, Distinct, TotalPreorder, Antisymmetric;
    AscendingSorted(s, le);
    DistinctSameSet(collected, Ascending(s, le));
    SortSorts(collected, le);
    SortPermutes(collected, le);
    SortedIsCanonical(Sort(collected, le), Ascending(s, le), le);
  }

  /** Collect, in whatever order the keys come, then sort. */
  method SetToSortedSlice<T(==, !new)>(s: set<T>, le: (T, T) -> bool) returns (r: seq<T>)
    requires TotalPreorder(le) && Antisymmetric(le)
    ensures r == Ascending(s, le)
  {
    var out: seq<T> := [];
    var left := s;
    while left != {}
      invariant left <= s && Distinct(out)
      invariant forall x :: x in out <==> x in s - left
      decreases |left|
    {
      var k :| k in left;
      PushDistinct(out, k);
      out := out + [k];
      left := left - {k};
    }
    SortedCollection(out, s, le);
    r := Sort(out, le);
  }
}
