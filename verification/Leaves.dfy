/** The canonical form of one causal node, the input of its leaf hash (speculative_merkle.go). */
module Leaves {
  import opened Sorting
  import opened SortedSets
  import opened Text
  import opened Causal

  const NUL: char := '\0'

  // ---- summaries ----

  /** Every run of white space becomes one blank. */
  function Collapse(s: string): (r: string)
    ensures |r| <= |s|
  {
    if s == "" then ""
    else
      var r, c := Collapse(s[..|s| - 1]), s[|s| - 1];
      if !IsSpace(c) then r + [c]
      else if r != "" && IsSpace(r[|r| - 1]) then r
      else r + " "
  }

  lemma CollapseStep(s: string, i: nat)
    requires i <= |s|
    ensures Collapse("") == ""
    ensures i < |s| ==> var r := Collapse(s[..i]);
      Collapse(s[..i + 1]) == if !IsSpace(s[i]) then r + [s[i]] else if r != "" && IsSpace(r[|r| - 1]) then r else r + " "
  {
    if i < |s| {
      assert s[..i + 1][..i] == s[..i];
    }
  }

  function Normalized(s: string): string {
    Collapse(ToLower(Trim(s)))
  }

  /** The program's loop over the trimmed, lower-cased bytes. */
  method NormalizeSummary(summary: string) returns (out: string)
    ensures out == Normalized(summary)
  {
    hide Collapse, Trim, ToLower;
    var s := ToLower(Trim(summary));
    CollapseStep(s, 0);
    if s == "" {
      return "";
    }
    out := "";
    var prevSpace := false;
    for i := 0 to |s|
      invariant out == Collapse(s[..i])
      invariant prevSpace <==> out != "" && IsSpace(out[|out| - 1])
    {
      CollapseStep(s, i);
      var c := s[i];
      if IsSpace(c) {
        if prevSpace {
          continue;
        }
        out := out + " ";
        prevSpace := true;
        continue;
      }
      out := out + [c];
      prevSpace := false;
    }
    assert s[..|s|] == s;
  }

  /** Only blanks, never two in a row. */
  ghost predicate Collapsed(s: string) {
    && (forall i :: 0 <= i < |s| && IsSpace(s[i]) ==> s[i] == ' ')
    && (forall i :: 0 < i < |s| ==> !(IsSpace(s[i - 1]) && IsSpace(s[i])))
  }

  lemma {:induction false} CollapseCollapses(s: string)
    ensures Collapsed(Collapse(s))
    ensures forall c :: c in Collapse(s) && c != ' ' ==> c in s
    ensures s != "" && !IsSpace(s[0]) ==> Collapse(s) != "" && Collapse(s)[0] == s[0]
    ensures s != "" && !IsSpace(s[|s| - 1]) ==> Collapse(s) != "" && Collapse(s)[|Collapse(s)| - 1] == s[|s| - 1]
  {
    if s != "" {
      CollapseCollapses(s[..|s| - 1]);
      if |s| == 1 {
        assert Collapse(s[..0]) == "";
      }
    }
  }

  lemma {:induction false} CollapseKeepsCollapsed(s: string)
    requires Collapsed(s)
    ensures Collapse(s) == s
  {
    hide Collapse;
    CollapseStep(s, 0);
    if s != "" {
      var last := |s| - 1;
      assert Collapsed(s[..last]);
      CollapseKeepsCollapsed(s[..last]);
      CollapseStep(s, last);
      assert s[..last + 1] == s && s == s[..last] + [s[last]];
      if last > 0 {
        assert s[..last][last - 1] == s[last - 1];
      }
    }
  }

  lemma LowerKept(s: string)
    requires forall c :: c in s ==> LowerChar(c) == c
    ensures ToLower(s) == s
  {
  }

  /** Normalising again changes nothing. */
  lemma NormalizedIsStable(s: string)
    ensures Normalized(Normalized(s)) == Normalized(s)
    ensures Trimmed(Normalized(s)) && Collapsed(Normalized(s))
  {
    var low := ToLower(Trim(s));
    var n := Collapse(low);
    CollapseCollapses(low);
    assert Trimmed(low);
    TrimOfTrimmed(n);
    forall c | c in n ensures LowerChar(c) == c {
      if c != ' ' {
        assert c in low;
        var i :| 0 <= i < |low| && low[i] == c;
        assert c == LowerChar(Trim(s)[i]);
      }
    }
    LowerKept(n);
    CollapseKeepsCollapsed(n);
  }

  lemma {:induction false} TrimLeftIsSuffix(s: string)
    ensures TrimLeft(s) == s[|s| - |TrimLeft(s)|..]
  {
    if s != "" && IsSpace(s[0]) {
      TrimLeftIsSuffix(s[1..]);
    }
  }

  lemma NormalizedHasNoNul(s: string)
    requires NUL !in s
    ensures NUL !in Normalized(s)
  {
    var t, low := Trim(s), ToLower(Trim(s));
    TrimLeftIsSuffix(s);
    assert t == TrimLeft(s)[..|t|];
    assert forall i :: 0 <= i < |low| ==> low[i] == LowerChar(t[i]) && t[i] in s;
    CollapseCollapses(low);
  }

  // ---- weights ----

  /** Millionths, halves away from zero: adding or subtracting a half, then truncating. */
  function Micro(w: real): int {
    var scaled := w * 1000000.0;
    if scaled >= 0.0 then (scaled + 0.5).Floor else -(-scaled + 0.5).Floor
  }

  function Rounded(w: real): real {
    Micro(w) as real / 1000000.0
  }

  /** `n` in base ten, `k` digits wide. */
  function Padded(k: nat, n: nat): (r: string)
    ensures |r| == k
    ensures forall c :: c in r ==> IsDigit(c)
  {
    if k == 0 then "" else Padded(k - 1, n / 10) + [DigitChar(n % 10)]
  }

  function Ten(k: nat): (r: nat)
    ensures r > 0
  {
    if k == 0 then 1 else 10 * Ten(k - 1)
  }

  lemma {:induction false} PaddedInjective(k: nat, m: nat, n: nat)
    requires m < Ten(k) && n < Ten(k) && Padded(k, m) == Padded(k, n)
    ensures m == n
  {
    if k > 0 {
      var p, q := Padded(k, m), Padded(k, n);
      assert p[..k - 1] == Padded(k - 1, m / 10) && q[..k - 1] == Padded(k - 1, n / 10);
      assert p[k - 1] == q[k - 1];
      PaddedInjective(k - 1, m / 10, n / 10);
    }
  }

  function Magnitude(micro: int): nat {
    if micro < 0 then -micro else micro
  }

  /** Fixed point, six decimals. */
  function MicroText(micro: int): string {
    (if micro < 0 then "-" else "") + Itoa(Magnitude(micro) / 1000000) + "." + Padded(6, Magnitude(micro) % 1000000)
  }

  function WeightText(w: real): string {
    MicroText(Micro(w))
  }

  lemma SignedHead(negative: bool, n: nat, c: char)
    requires c == '.' || c == NUL
    ensures c !in (if negative then "-" else "") + Itoa(n)
  {
  }

  lemma MicroTextInjective(a: int, b: int)
    requires MicroText(a) == MicroText(b)
    ensures a == b
  {
    hide Itoa, Padded;
    var ha := (if a < 0 then "-" else "") + Itoa(Magnitude(a) / 1000000);
    var hb := (if b < 0 then "-" else "") + Itoa(Magnitude(b) / 1000000);
    SignedHead(a < 0, Magnitude(a) / 1000000, '.');
    SignedHead(b < 0, Magnitude(b) / 1000000, '.');
    FirstField(ha, hb, '.', Padded(6, Magnitude(a) % 1000000), Padded(6, Magnitude(b) % 1000000));
    SignRead(a < 0, Magnitude(a) / 1000000);
    SignRead(b < 0, Magnitude(b) / 1000000);
    assert Ten(6) == 1000000;
    PaddedInjective(6, Magnitude(a) % 1000000, Magnitude(b) % 1000000);
    assert Itoa(Magnitude(a) / 1000000) == ha[if a < 0 then 1 else 0..];
    assert Itoa(Magnitude(b) / 1000000) == hb[if b < 0 then 1 else 0..];
    ItoaInjective(Magnitude(a) / 1000000, Magnitude(b) / 1000000);
  }

  lemma SignRead(negative: bool, n: nat)
    ensures var s := (if negative then "-" else "") + Itoa(n); s != "" && (s[0] == '-' <==> negative)
  {
    assert Itoa(n)[0] in Itoa(n);
  }

  lemma MicroTextHasNoNul(micro: int)
    ensures NUL !in MicroText(micro)
  {
    SignedHead(micro < 0, Magnitude(micro) / 1000000, NUL);
  }

  lemma MicroIsNear(w: real)
    ensures -0.5 <= w * 1000000.0 - Micro(w) as real <= 0.5
    ensures w * 1000000.0 - Micro(w) as real == 0.5 ==> Micro(w) < 0
    ensures w * 1000000.0 - Micro(w) as real == -0.5 ==> Micro(w) > 0
  {
  }

  /** Two weights read the same exactly when they round to the same millionth, and then they
      are closer than a millionth. */
  lemma SameWeightText(v: real, w: real)
    ensures WeightText(v) == WeightText(w) <==> Micro(v) == Micro(w)
    ensures WeightText(v) == WeightText(w) ==> -0.000001 < v - w < 0.000001
    ensures -0.0000005 <= w - Rounded(w) <= 0.0000005
  {
    hide MicroText, Micro;
    if WeightText(v) == WeightText(w) {
      MicroTextInjective(Micro(v), Micro(w));
    }
    MicroIsNear(v);
    MicroIsNear(w);
  }

  /** The converse, which the source's comment claims, fails: within a millionth of each other
      yet read differently. */
  lemma CloseWeightsReadDifferently()
    ensures var v, w := 0.0000004, 0.0000006; -0.000001 < v - w < 0.000001 && WeightText(v) != WeightText(w)
  {
    hide MicroText;
    assert Micro(0.0000004) == 0 && Micro(0.0000006) == 1;
    SameWeightText(0.0000004, 0.0000006);
  }

  // ---- lists and maps ----

  /** `strings.Join` with NUL. */
  function Join(parts: seq<string>): string {
    if parts == [] then ""
    else if |parts| == 1 then parts[0]
    else Join(parts[..|parts| - 1]) + [NUL] + parts[|parts| - 1]
  }

  function SortedJoin(xs: seq<string>): string {
    Join(Sort(xs, StringLE))
  }

  function Pairs(keys: seq<string>, meta: map<string, string>): (r: seq<string>)
    requires forall k :: k in keys ==> k in meta
    ensures |r| == |keys|
  {
    if keys == [] then []
    else Pairs(keys[..|keys| - 1], meta) + [keys[|keys| - 1] + "=" + meta[keys[|keys| - 1]]]
  }

  function MetaPairs(meta: map<string, string>): seq<string> {
    StringOrder();
    Pairs(Ascending(meta.Keys, StringLE), meta)
  }

  function MetaJoin(meta: map<string, string>): string {
    Join(MetaPairs(meta))
  }

  method SortedMetaJoin(meta: map<string, string>) returns (r: string)
    ensures r == MetaJoin(meta)
  {
    hide Pairs, Join, StringLE, TotalPreorder, Antisymmetric;
    StringOrder();
    var keys := SetToSortedSlice(meta.Keys, StringLE);
    var parts: seq<string> := [];
    PairsStep(keys, meta, 0);
    for i := 0 to |keys|
      invariant parts == Pairs(keys[..i], meta)
    {
      PairsStep(keys, meta, i);
      parts := parts + [keys[i] + "=" + meta[keys[i]]];
    }
    assert keys[..|keys|] == keys;
    r := Join(parts);
  }

  lemma PairsStep(keys: seq<string>, meta: map<string, string>, i: nat)
    requires i <= |keys| && forall k :: k in keys ==> k in meta
    ensures Pairs([], meta) == []
    ensures forall k :: k in keys[..i] ==> k in meta
    ensures i < |keys| ==> keys[i] in meta
    ensures i < |keys| ==> Pairs(keys[..i + 1], meta) == Pairs(keys[..i], meta) + [keys[i] + "=" + meta[keys[i]]]
  {
    if i < |keys| {
      assert keys[..i + 1][..i] == keys[..i];
    }
  }

  // ---- what a joined text tells of its parts ----

  /** The pieces between separators; one empty piece for the empty text. */
  function Cells(s: string): (r: seq<string>)
    ensures |r| >= 1
    decreases |s|
  {
    var i := Find(s, NUL);
    if i == |s| then [s] else [s[..i]] + Cells(s[i + 1..])
  }

  function CellsOf(parts: seq<string>): seq<string> {
    if parts == [] then [""]
    else if |parts| == 1 then Cells(parts[0])
    else CellsOf(parts[..|parts| - 1]) + Cells(parts[|parts| - 1])
  }

  /** The list itself, except that an empty list shows as one empty part. */
  function Tokens(parts: seq<string>): seq<string> {
    if parts == [] then [""] else parts
  }

  lemma {:induction false} JoinFront(x: string, rest: seq<string>)
    requires rest != []
    ensures Join([x] + rest) == x + [NUL] + Join(rest)
    decreases |rest|
  {
    var all, last := [x] + rest, |rest| - 1;
    assert all[..|all| - 1] == [x] + rest[..last];
    if last == 0 {
      assert [x] + rest[..0] == [x];
    } else {
      JoinFront(x, rest[..last]);
      assert x + [NUL] + Join(rest[..last]) + [NUL] + rest[last] == x + [NUL] + (Join(rest[..last]) + [NUL] + rest[last]);
    }
  }

  /** Cutting loses nothing. */
  lemma {:induction false} JoinOfCells(s: string)
    ensures Join(Cells(s)) == s
    decreases |s|
  {
    hide Cells, Join, Find;
    FirstCell(s);
    JoinOfOne(s);
    var i := Find(s, NUL);
    if i < |s| {
      var rest := s[i + 1..];
      JoinOfCells(rest);
      JoinFront(s[..i], Cells(rest));
      assert s == s[..i] + [NUL] + rest;
    }
  }

  lemma JoinOfOne(s: string)
    ensures Join([s]) == s
  {
  }

  lemma {:induction false} FirstCell(s: string)
    ensures var i := Find(s, NUL);
      Cells(s) == if i == |s| then [s] else [s[..i]] + Cells(s[i + 1..])
  {
    hide Find;
  }

  lemma CutAt(x: string, rest: string)
    requires NUL !in x
    ensures Cells(x + [NUL] + rest) == [x] + Cells(rest)
  {
    var s := x + [NUL] + rest;
    FindUnique(x, NUL, rest);
    assert s[..|x|] == x && s[|x| + 1..] == rest;
  }

  lemma UncutCell(s: string)
    requires NUL !in s
    ensures Cells(s) == [s]
  {
    assert forall k :: 0 <= k < |s| ==> s[k] in s && s[k] != NUL;
  }

  lemma {:induction false} CellsOfConcat(a: string, b: string)
    ensures Cells(a + [NUL] + b) == Cells(a) + Cells(b)
    decreases |a|
  {
    hide Cells;
    var i := Find(a, NUL);
    if i == |a| {
      assert a[..|a|] == a;
      UncutCell(a);
      CutAt(a, b);
    } else {
      var x, more := a[..i], a[i + 1..];
      assert a == x + [NUL] + more;
      CutAt(x, more);
      assert a + [NUL] + b == x + [NUL] + (more + [NUL] + b);
      CutAt(x, more + [NUL] + b);
      CellsOfConcat(more, b);
    }
  }

  lemma {:induction false} CellsOfJoin(parts: seq<string>)
    ensures Cells(Join(parts)) == CellsOf(parts)
  {
    hide Cells;
    if parts == [] {
      NoCells();
    } else if |parts| > 1 {
      CellsOfJoin(parts[..|parts| - 1]);
      CellsOfConcat(Join(parts[..|parts| - 1]), parts[|parts| - 1]);
    }
  }

  lemma NoCells()
    ensures Cells("") == [""]
  {
  }

  ghost predicate Free(parts: seq<string>) {
    forall p :: p in parts ==> NUL !in p
  }

  /** Parts without the separator are told apart exactly. */
  lemma {:induction false} CellsOfFree(parts: seq<string>)
    requires Free(parts)
    ensures CellsOf(parts) == Tokens(parts)
  {
    if parts != [] {
      var last := parts[|parts| - 1];
      assert last in parts;
      UncutCell(last);
      if |parts| > 1 {
        CellsOfFree(parts[..|parts| - 1]);
        assert parts == parts[..|parts| - 1] + [last];
      }
    }
  }

  // ---- the leaf ----

  /** The three list fields, joined with the very character that ends a field. */
  function Tail(n: CausalNode): string {
    SortedJoin(n.parents) + [NUL] + SortedJoin(n.atomRefs) + [NUL] + MetaJoin(n.meta) + [NUL]
  }

  /** The cells of the three lists, one list after the other, no boundary between them. */
  function Listed(n: CausalNode): seq<string> {
    CellsOf(Sort(n.parents, StringLE)) + CellsOf(Sort(n.atomRefs, StringLE)) + CellsOf(MetaPairs(n.meta))
  }

  lemma TailBody(n: CausalNode) returns (body: string)
    ensures Tail(n) == body + [NUL] && Cells(body) == Listed(n)
  {
    hide Cells, CellsOf, Sort, Join, MetaPairs, StringLE;
    var p, r, m := SortedJoin(n.parents), SortedJoin(n.atomRefs), MetaJoin(n.meta);
    body := p + [NUL] + (r + [NUL] + m);
    CellsOfConcat(p, r + [NUL] + m);
    CellsOfConcat(r, m);
    CellsOfJoin(Sort(n.parents, StringLE));
    CellsOfJoin(Sort(n.atomRefs, StringLE));
    CellsOfJoin(MetaPairs(n.meta));
    assert CellsOf(Sort(n.parents, StringLE)) + (CellsOf(Sort(n.atomRefs, StringLE)) + CellsOf(MetaPairs(n.meta))) == Listed(n);
  }

  /** The concatenated text says of the three lists exactly their run of cells. */
  lemma TailMeaning(a: CausalNode, b: CausalNode)
    ensures Tail(a) == Tail(b) <==> Listed(a) == Listed(b)
  {
    hide Tail, Listed, Cells;
    var x := TailBody(a);
    var y := TailBody(b);
    JoinOfCells(x);
    JoinOfCells(y);
    assert (x + [NUL])[..|x|] == x && (y + [NUL])[..|y|] == y;
  }

  /** The separator does not occur in the lists either. */
  ghost predicate ListsFree(n: CausalNode) {
    && Free(n.parents) && Free(n.atomRefs)
    && forall k :: k in n.meta ==> NUL !in k && NUL !in n.meta[k]
  }

  lemma FreeSorted(parts: seq<string>)
    requires Free(parts)
    ensures Free(Sort(parts, StringLE))
  {
    forall p | p in Sort(parts, StringLE) ensures NUL !in p {
      SortKeepsMember(parts, StringLE, p);
    }
  }

  lemma {:induction false} PairsAre(keys: seq<string>, meta: map<string, string>, i: nat)
    requires (forall k :: k in keys ==> k in meta) && i < |keys|
    ensures keys[i] in meta && Pairs(keys, meta)[i] == keys[i] + "=" + meta[keys[i]]
    decreases |keys|
  {
    if i < |keys| - 1 {
      PairsAre(keys[..|keys| - 1], meta, i);
    }
  }

  lemma FreePairs(n: CausalNode)
    requires ListsFree(n)
    ensures Free(MetaPairs(n.meta)) && "" !in MetaPairs(n.meta)
  {
    StringOrder();
    hide StringLE, TotalPreorder, Antisymmetric, Pairs;
    var keys := Ascending(n.meta.Keys, StringLE);
    forall p | p in MetaPairs(n.meta) ensures NUL !in p && p != "" {
      var i :| 0 <= i < |keys| && Pairs(keys, n.meta)[i] == p;
      PairsAre(keys, n.meta, i);
    }
  }

  /** For lists without the separator a leaf determines one sequence: the sorted parents, the
      sorted references and the pairs, end to end, an empty list counting as one empty part. */
  lemma ListedIsTokens(n: CausalNode)
    requires ListsFree(n)
    ensures Listed(n) == Tokens(Sort(n.parents, StringLE)) + Tokens(Sort(n.atomRefs, StringLE)) + Tokens(MetaPairs(n.meta))
  {
    hide CellsOf, Sort, MetaPairs, StringLE;
    FreeSorted(n.parents);
    FreeSorted(n.atomRefs);
    FreePairs(n);
    CellsOfFree(Sort(n.parents, StringLE));
    CellsOfFree(Sort(n.atomRefs, StringLE));
    CellsOfFree(MetaPairs(n.meta));
  }

  /** The same lists: parents and references in any order, and the pairs. */
  ghost predicate SameLists(a: CausalNode, b: CausalNode) {
    && multiset(a.parents) == multiset(b.parents)
    && multiset(a.atomRefs) == multiset(b.atomRefs)
    && MetaPairs(a.meta) == MetaPairs(b.meta)
  }

  lemma TokensByLength(p: seq<string>, q: seq<string>, x: seq<string>, y: seq<string>)
    requires |p| == |q| && Tokens(p) + x == Tokens(q) + y
    ensures p == q && x == y
  {
    assert Tokens(p) == (Tokens(p) + x)[..|Tokens(p)|] && Tokens(q) == (Tokens(q) + y)[..|Tokens(q)|];
    assert x == (Tokens(p) + x)[|Tokens(p)|..] && y == (Tokens(q) + y)[|Tokens(q)|..];
  }

  /** When a leaf does determine the lists: of two nodes it cannot tell apart, the lists are the
      same exactly when there are as many parents and as many references. */
  lemma ListsDeterminedByCounts(a: CausalNode, b: CausalNode)
    requires ListsFree(a) && ListsFree(b) && Listed(a) == Listed(b)
    ensures SameLists(a, b) <==> |a.parents| == |b.parents| && |a.atomRefs| == |b.atomRefs|
  {
    hide Listed, StringLE, Sort, MetaPairs;
    var p, q := Sort(a.parents, StringLE), Sort(b.parents, StringLE);
    var r, s := Sort(a.atomRefs, StringLE), Sort(b.atomRefs, StringLE);
    var m, n := MetaPairs(a.meta), MetaPairs(b.meta);
    ListedIsTokens(a);
    ListedIsTokens(b);
    FreePairs(a);
    FreePairs(b);
    SortPermutes(a.parents, StringLE);
    SortPermutes(b.parents, StringLE);
    SortPermutes(a.atomRefs, StringLE);
    SortPermutes(b.atomRefs, StringLE);
    if |a.parents| == |b.parents| && |a.atomRefs| == |b.atomRefs| {
      Regroup(Tokens(p), Tokens(r), Tokens(m));
      Regroup(Tokens(q), Tokens(s), Tokens(n));
      TokensByLength(p, q, Tokens(r) + Tokens(m), Tokens(s) + Tokens(n));
      TokensByLength(r, s, Tokens(m), Tokens(n));
      PairTokens(m, n);
    }
    if SameLists(a, b) {
      SameLength(a.parents, b.parents);
      SameLength(a.atomRefs, b.atomRefs);
    }
  }

  lemma Regroup(x: seq<string>, y: seq<string>, z: seq<string>)
    ensures x + y + z == x + (y + z)
  {
  }

  lemma PairTokens(m: seq<string>, n: seq<string>)
    requires "" !in m && "" !in n && Tokens(m) == Tokens(n)
    ensures m == n
  {
    assert m != [] ==> m[0] in m;
    assert n != [] ==> n[0] in n;
  }

  /** And the pairs determine the metadata, as long as no key contains the sign between. */
  lemma PairsDetermineMetadata(m: map<string, string>, n: map<string, string>)
    requires (forall k :: k in m ==> '=' !in k) && (forall k :: k in n ==> '=' !in k)
    ensures MetaPairs(m) == MetaPairs(n) <==> m == n
  {
    StringOrder();
    hide StringLE, TotalPreorder, Antisymmetric, Pairs;
    var ks, ls := Ascending(m.Keys, StringLE), Ascending(n.Keys, StringLE);
    if MetaPairs(m) == MetaPairs(n) {
      forall i | 0 <= i < |ks| ensures ks[i] == ls[i] && m[ks[i]] == n[ls[i]] {
        PairsAre(ks, m, i);
        PairsAre(ls, n, i);
        assert ks[i] + "=" + m[ks[i]] == ks[i] + ['='] + m[ks[i]];
        assert ls[i] + "=" + n[ls[i]] == ls[i] + ['='] + n[ls[i]];
        FirstField(ks[i], ls[i], '=', m[ks[i]], n[ls[i]]);
      }
      assert ks == ls;
      forall k ensures k in m <==> k in n {
        assert k in m <==> k in ks;
        assert k in n <==> k in ls;
      }
      forall k | k in m ensures m[k] == n[k] {
        assert k in ks;
        var i :| 0 <= i < |ks| && ks[i] == k;
      }
    }
  }

  /** What is hashed, after the leaf tag. */
  function Preimage(n: CausalNode): string {
    n.id + [NUL] + (RoleName(n.role) + [NUL] + (Normalized(n.summary) + [NUL] + (WeightText(n.weight) + [NUL] + Tail(n))))
  }

  /** The separator does not occur in the fields that precede the lists. */
  predicate NulFree(n: CausalNode) {
    NUL !in n.id && NUL !in RoleName(n.role) && NUL !in n.summary
  }

  /** Equal as far as the leaf can tell. */
  ghost predicate SameMechanism(a: CausalNode, b: CausalNode) {
    && a.id == b.id
    && a.role == b.role
    && Normalized(a.summary) == Normalized(b.summary)
    && Micro(a.weight) == Micro(b.weight)
    && Listed(a) == Listed(b)
  }

  /** A leaf determines, and is determined by, identifier, role, normalised summary, rounded
      weight and the run of cells of the lists. */
  lemma PreimageMeaning(a: CausalNode, b: CausalNode)
    requires NulFree(a) && NulFree(b)
    ensures Preimage(a) == Preimage(b) <==> SameMechanism(a, b)
  {
    TailMeaning(a, b);
    hide Tail, Listed, Normalized, WeightText, Micro, RoleName;
    SameWeightText(a.weight, b.weight);
    if Preimage(a) == Preimage(b) {
      var wa, wb := WeightText(a.weight) + [NUL] + Tail(a), WeightText(b.weight) + [NUL] + Tail(b);
      var sa, sb := Normalized(a.summary) + [NUL] + wa, Normalized(b.summary) + [NUL] + wb;
      FirstField(a.id, b.id, NUL, RoleName(a.role) + [NUL] + sa, RoleName(b.role) + [NUL] + sb);
      FirstField(RoleName(a.role), RoleName(b.role), NUL, sa, sb);
      RoleNameInjective(a.role, b.role);
      NormalizedHasNoNul(a.summary);
      NormalizedHasNoNul(b.summary);
      FirstField(Normalized(a.summary), Normalized(b.summary), NUL, wa, wb);
      WeightHasNoNul(a.weight);
      WeightHasNoNul(b.weight);
      FirstField(WeightText(a.weight), WeightText(b.weight), NUL, Tail(a), Tail(b));
    }
  }

  lemma WeightHasNoNul(w: real)
    ensures NUL !in WeightText(w)
  {
    MicroTextHasNoNul(Micro(w));
  }

  /** Reordering the parents, the references or the metadata does not show. */
  lemma TailForgetsOrder(a: CausalNode, b: CausalNode)
    requires multiset(a.parents) == multiset(b.parents) && multiset(a.atomRefs) == multiset(b.atomRefs) && a.meta == b.meta
    ensures Tail(a) == Tail(b)
  {
    StringOrder();
    hide Sort, Join, StringLE, TotalPreorder, Antisymmetric;
    SortForgetsOrder(a.parents, b.parents, StringLE);
    SortForgetsOrder(a.atomRefs, b.atomRefs, StringLE);
  }

  /** Where one list ends and the next begins is not recorded, so a parent can pass for a
      reference: the claim that equal roots mean equal parents does not hold. */
  lemma ParentsAreNotDetermined(n: CausalNode)
    ensures Preimage(n.(parents := ["a", "b"], atomRefs := ["c"])) == Preimage(n.(parents := ["a"], atomRefs := ["b", "c"]))
  {
    var p, q := n.(parents := ["a", "b"], atomRefs := ["c"]), n.(parents := ["a"], atomRefs := ["b", "c"]);
    SortsTwo("a", "b");
    SortsTwo("b", "c");
    assert Join(["a", "b"]) + [NUL] + Join(["c"]) == Join(["a"]) + [NUL] + Join(["b", "c"]) by {
      JoinTwo("a", "b");
      JoinTwo("b", "c");
    }
    assert Tail(p) == Tail(q);
  }

  lemma SortsTwo(x: string, y: string)
    requires |x| == |y| == 1 && x[0] < y[0]
    ensures Sort([x, y], StringLE) == [x, y] && Sort([x], StringLE) == [x] && Sort([y], StringLE) == [y]
  {
    SortIsIdentityOnSorted([x, y], StringLE);
    SortIsIdentityOnSorted([x], StringLE);
    SortIsIdentityOnSorted([y], StringLE);
  }

  lemma JoinTwo(x: string, y: string)
    ensures Join([x, y]) == x + [NUL] + y && Join([x]) == x && Join([y]) == y
  {
    assert [x, y][..1] == [x];
  }

  function Nuls(s: string): nat {
    if s == "" then 0 else Nuls(s[..|s| - 1]) + if s[|s| - 1] == NUL then 1 else 0
  }

  lemma {:induction false} NulsOfConcat(s: string, t: string)
    ensures Nuls(s + t) == Nuls(s) + Nuls(t)
    decreases |t|
  {
    if t == "" {
      assert s + t == s;
    } else {
      NulsOfConcat(s, t[..|t| - 1]);
      assert (s + t)[..|s + t| - 1] == s + t[..|t| - 1];
    }
  }

  /** Seven terminated fields: no node's preimage is the one of the empty graph. */
  lemma PreimageIsNeverEmptyMark(n: CausalNode)
    ensures Preimage(n) != "empty" + [NUL]
  {
    hide Tail, Normalized, WeightText, RoleName;
    var w := WeightText(n.weight) + [NUL] + Tail(n);
    var s := Normalized(n.summary) + [NUL] + w;
    hide Nuls;
    TwoNuls(n.id, RoleName(n.role), s);
    OneNul();
  }

  lemma OneNul()
    ensures Nuls("empty" + [NUL]) == 1
  {
    NulsOfConcat("empty", [NUL]);
    assert Nuls("empty") == 0 by {
      assert "empty"[..4] == "empt" && "empt"[..3] == "emp" && "emp"[..2] == "em" && "em"[..1] == "e" && "e"[..0] == "";
    }
    assert Nuls([NUL]) == 1 by {
      assert [NUL][..0] == "";
    }
  }

  lemma TwoNuls(a: string, b: string, c: string)
    ensures Nuls(a + [NUL] + (b + [NUL] + c)) >= 2
  {
    NulsOfConcat(a + [NUL], b + [NUL] + c);
    NulsOfConcat(a, [NUL]);
    NulsOfConcat(b + [NUL], c);
    NulsOfConcat(b, [NUL]);
    assert [NUL][..0] == "";
    assert Nuls([NUL]) == 1;
  }
}
