/** The few operations of Go's `strings` and `strconv` packages the repository leans on,
    over text as a sequence of characters in the ASCII range of their tables. */
module Text {
  import opened Sorting

  datatype Option<+T> = None | Some(value: T)

  // ---- byte-wise order ----

  predicate StringLE(a: string, b: string) {
    a == [] || (b != [] && (a[0] < b[0] || (a[0] == b[0] && StringLE(a[1..], b[1..]))))
  }

  lemma {:induction false} StringTotal(a: string, b: string)
    ensures StringLE(a, b) || StringLE(b, a)
  {
    if a != [] && b != [] && a[0] == b[0] {
      StringTotal(a[1..], b[1..]);
    }
  }

  lemma {:induction false} StringTransitive(a: string, b: string, c: string)
    requires StringLE(a, b) && StringLE(b, c)
    ensures StringLE(a, c)
  {
    if a != [] && a[0] == b[0] && b[0] == c[0] {
      StringTransitive(a[1..], b[1..], c[1..]);
    }
  }

  lemma {:induction false} StringAntisymmetric(a: string, b: string)
    requires StringLE(a, b) && StringLE(b, a)
    ensures a == b
  {
    if a != [] {
      StringAntisymmetric(a[1..], b[1..]);
      assert a == [a[0]] + a[1..] && b == [b[0]] + b[1..];
    }
  }

  lemma StringOrder()
    ensures TotalPreorder(StringLE) && Antisymmetric(StringLE)
  {
    forall a, b ensures StringLE(a, b) || StringLE(b, a) {
      StringTotal(a, b);
    }
    forall a, b, c | StringLE(a, b) && StringLE(b, c) ensures StringLE(a, c) {
      StringTransitive(a, b, c);
    }
    forall a, b | StringLE(a, b) && StringLE(b, a) ensures a == b {
      StringAntisymmetric(a, b);
    }
  }

  // ---- white space and case ----

  /** ' ', \t, \n, \v, \f, \r. */
  predicate IsSpace(c: char) {
    c == ' ' || 9 <= c as int <= 13
  }

  function TrimLeft(s: string): (r: string)
    ensures |r| <= |s|
    ensures r != [] ==> !IsSpace(r[0])
  {
    if s != [] && IsSpace(s[0]) then TrimLeft(s[1..]) else s
  }

  function TrimRight(s: string): (r: string)
    ensures |r| <= |s| && r == s[..|r|]
    ensures r != [] ==> !IsSpace(r[|r| - 1])
  {
    if s != [] && IsSpace(s[|s| - 1]) then TrimRight(s[..|s| - 1]) else s
  }

  /** `strings.TrimSpace`. */
  function Trim(s: string): (r: string)
    ensures Trimmed(r)
  {
    TrimRight(TrimLeft(s))
  }

  /** Neither end is white space. */
  predicate Trimmed(s: string) {
    s != [] ==> !IsSpace(s[0]) && !IsSpace(s[|s| - 1])
  }

  lemma TrimOfTrimmed(s: string)
    ensures Trim(s) == s <==> Trimmed(s)
  {
  }

  lemma {:induction false} TrimRightKeeps(s: string, k: nat)
    requires k < |s| && !IsSpace(s[k])
    ensures k < |TrimRight(s)|
  {
    if IsSpace(s[|s| - 1]) {
      TrimRightKeeps(s[..|s| - 1], k);
    }
  }

  lemma {:induction false} TrimKeeps(s: string, k: nat)
    requires k < |s| && !IsSpace(s[k])
    ensures Trim(s) != ""
  {
    if IsSpace(s[0]) {
      TrimKeeps(s[1..], k - 1);
    } else {
      TrimRightKeeps(s, 0);
    }
  }

  lemma {:induction false} TrimRightOfConcat(x: string, rest: string)
    requires x != "" && !IsSpace(x[|x| - 1])
    ensures TrimRight(x + rest) == x + TrimRight(rest)
    decreases |rest|
  {
    var s := x + rest;
    if rest != "" {
      assert s[|s| - 1] == rest[|rest| - 1];
      if IsSpace(rest[|rest| - 1]) {
        assert s[..|s| - 1] == x + rest[..|rest| - 1];
        TrimRightOfConcat(x, rest[..|rest| - 1]);
      }
    } else {
      assert s == x;
    }
  }

  function LowerChar(c: char): (r: char)
    ensures IsSpace(r) <==> IsSpace(c)
    ensures r == ':' <==> c == ':'
  {
    if 'A' <= c <= 'Z' then (c as int + 32) as char else c
  }

  function ToLower(s: string): (r: string)
    ensures |r| == |s|
    ensures forall i :: 0 <= i < |s| ==> r[i] == LowerChar(s[i])
  {
    seq(|s|, i requires 0 <= i < |s| => LowerChar(s[i]))
  }

  /** The alphabet from end to end; and a text without capitals stays as it is. */
  lemma LowerAlphabet(s: string)
    requires forall c :: c in s ==> c < 'A' || 'Z' < c
    ensures ToLower("AZ") == "az" && ToLower(s) == s
  {
    assert forall i :: 0 <= i < |s| ==> s[i] in s;
  }

  // ---- searching and splitting at a character ----

  /** Index of the first `c`, or |s|. */
  function Find(s: string, c: char): (i: nat)
    ensures i <= |s|
    ensures i < |s| ==> s[i] == c
    ensures c !in s[..i]
  {
    if s == [] || s[0] == c then 0 else
      var i := 1 + Find(s[1..], c);
      assert s[..i] == [s[0]] + s[1..][..i - 1];
      i
  }

  lemma {:induction false} FindUnique(a: string, c: char, rest: string)
    requires c !in a
    ensures Find(a + [c] + rest, c) == |a|
  {
    if a != [] {
      assert (a + [c] + rest)[1..] == a[1..] + [c] + rest;
      FindUnique(a[1..], c, rest);
    }
  }

  /** A separator-free first field is recovered from a separated text. */
  lemma FirstField(a: string, b: string, c: char, x: string, y: string)
    requires c !in a && c !in b
    requires a + [c] + x == b + [c] + y
    ensures a == b && x == y
  {
    FindUnique(a, c, x);
    FindUnique(b, c, y);
    assert a == (a + [c] + x)[..|a|] && b == (b + [c] + y)[..|b|];
    assert x == (a + [c] + x)[|a| + 1..] && y == (b + [c] + y)[|b| + 1..];
  }

  // ---- decimal numerals ----

  function DigitChar(d: int): (c: char)
    requires 0 <= d < 10
    ensures IsDigit(c) && c as int == d + 48
  {
    (d + 48) as char
  }

  predicate IsDigit(c: char) {
    '0' <= c <= '9'
  }

  function DigitValue(c: char): (d: int)
    requires IsDigit(c)
    ensures 0 <= d < 10 && c as int == d + 48
  {
    c as int - 48
  }

  /** `strconv.Itoa` on a non-negative number. */
  function Itoa(n: nat): (s: string)
    ensures s != []
    ensures forall c :: c in s ==> IsDigit(c)
  {
    if n < 10 then [DigitChar(n)] else Itoa(n / 10) + [DigitChar(n % 10)]
  }

  /** Value of a run of digits, or None. */
  function DigitsValue(s: string): (v: Option<nat>) {
    if s == [] then None
    else if !IsDigit(s[|s| - 1]) then None
    else if |s| == 1 then Some(DigitValue(s[0]))
    else match DigitsValue(s[..|s| - 1])
      case None => None
      case Some(hi) => Some(10 * hi + DigitValue(s[|s| - 1]))
  }

  const MAX_INT: int := 0x7fff_ffff_ffff_ffff

  /** `strconv.Atoi`: an optional sign, at least one digit, in the range of a 64-bit int. */
  function Atoi(s: string): Option<int> {
    if s != [] && (s[0] == '-' || s[0] == '+') then
      match DigitsValue(s[1..])
      case None => None
      case Some(n) =>
        var i: int := n;
        if s[0] == '-' then (if i <= MAX_INT + 1 then Some(-i) else None)
        else (if i <= MAX_INT then Some(i) else None)
    else
      match DigitsValue(s)
      case None => None
      case Some(n) => if n <= MAX_INT then Some(n) else None
  }

  lemma {:induction false} DigitsOfItoa(n: nat)
    ensures DigitsValue(Itoa(n)) == Some(n)
  {
    if n >= 10 {
      DigitsOfItoa(n / 10);
      var s := Itoa(n);
      assert s[..|s| - 1] == Itoa(n / 10);
    }
  }

  lemma AtoiOfItoa(n: nat)
    ensures Atoi(Itoa(n)) == if n <= MAX_INT then Some(n) else None
  {
    DigitsOfItoa(n);
    assert Itoa(n)[0] in Itoa(n);
  }

  lemma ItoaInjective(m: nat, n: nat)
    requires Itoa(m) == Itoa(n)
    ensures m == n
  {
    DigitsOfItoa(m);
    DigitsOfItoa(n);
  }

  lemma ItoaHasNoSpace(n: nat)
    ensures Trimmed(Itoa(n)) && '\n' !in Itoa(n) && '\r' !in Itoa(n)
  {
    assert Itoa(n)[0] in Itoa(n) && Itoa(n)[|Itoa(n)| - 1] in Itoa(n);
  }
}
