/** What normalising a summary keeps, and how a leaf spells its fields (speculative_merkle.go). */
module SummaryWords {
  import opened Text
  import opened Sorting
  import opened SortedSets
  import opened Causal
  import opened Leaves

  /** The runs of characters between white space. */
  function Words(s: string): (ws: seq<string>)
    ensures s != "" && !IsSpace(s[|s| - 1]) ==> ws != []
  {
    if s == "" then []
    else
      var front, c := s[..|s| - 1], s[|s| - 1];
      var ws := Words(front);
      if IsSpace(c) then ws
      else if front == "" || IsSpace(front[|front| - 1]) then ws + [[c]]
      else ws[..|ws| - 1] + [ws[|ws| - 1] + [c]]
  }

  /** Words with one blank between neighbours. */
  function Spaced(ws: seq<string>): string {
    if ws == [] then "" else if |ws| == 1 then ws[0] else Spaced(ws[..|ws| - 1]) + " " + ws[|ws| - 1]
  }

  lemma WordsStep(s: string, c: char)
    ensures var ws := Words(s);
      Words(s + [c]) == if IsSpace(c) then ws
                        else if s == "" || IsSpace(s[|s| - 1]) then ws + [[c]]
                        else ws[..|ws| - 1] + [ws[|ws| - 1] + [c]]
  {
    assert (s + [c])[..|s|] == s;
  }

  lemma {:induction false} LeadingSpace(c: char, s: string)
    requires IsSpace(c)
    ensures Words([c] + s) == Words(s)
  {
    hide Words;
    if s == "" {
      WordsStep("", c);
      assert [c] + s == "" + [c];
    } else {
      var front, last := s[..|s| - 1], s[|s| - 1];
      LeadingSpace(c, front);
      WordsStep([c] + front, last);
      WordsStep(front, last);
      assert [c] + s == ([c] + front) + [last] && s == front + [last];
    }
  }

  lemma {:induction false} WordsOfTrimLeft(s: string)
    ensures Words(TrimLeft(s)) == Words(s)
  {
    hide Words;
    if s != "" && IsSpace(s[0]) {
      WordsOfTrimLeft(s[1..]);
      LeadingSpace(s[0], s[1..]);
      assert [s[0]] + s[1..] == s;
    }
  }

  lemma {:induction false} WordsOfTrimRight(s: string)
    ensures Words(TrimRight(s)) == Words(s)
  {
    hide Words;
    if s != "" && IsSpace(s[|s| - 1]) {
      var front := s[..|s| - 1];
      WordsOfTrimRight(front);
      WordsStep(front, s[|s| - 1]);
      assert s == front + [s[|s| - 1]];
    }
  }

  lemma {:induction false} WordsOfCollapse(s: string)
    ensures Words(Collapse(s)) == Words(s)
    ensures s == "" <==> Collapse(s) == ""
    ensures s != "" ==> (IsSpace(Collapse(s)[|Collapse(s)| - 1]) <==> IsSpace(s[|s| - 1]))
  {
    hide Words;
    if s != "" {
      var front, c := s[..|s| - 1], s[|s| - 1];
      WordsOfCollapse(front);
      var r := Collapse(front);
      WordsStep(front, c);
      WordsStep(r, c);
      WordsStep(r, ' ');
      assert s == front + [c];
    }
  }

  /** Normalising changes no word, once the case is folded. */
  lemma WordsOfNormalized(s: string)
    ensures Words(Normalized(s)) == Words(ToLower(Trim(s)))
  {
    hide Words, Trim, ToLower;
    WordsOfCollapse(ToLower(Trim(s)));
  }

  lemma LowerTrims(s: string)
    ensures ToLower(TrimLeft(s)) == TrimLeft(ToLower(s)) && ToLower(TrimRight(s)) == TrimRight(ToLower(s))
  {
    LowerTrimsLeft(s);
    LowerTrimsRight(s);
  }

  lemma {:induction false} LowerTrimsLeft(s: string)
    ensures ToLower(TrimLeft(s)) == TrimLeft(ToLower(s))
  {
    if s != "" && IsSpace(s[0]) {
      LowerTrimsLeft(s[1..]);
      assert ToLower(s)[1..] == ToLower(s[1..]);
    }
  }

  lemma {:induction false} LowerTrimsRight(s: string)
    ensures ToLower(TrimRight(s)) == TrimRight(ToLower(s))
  {
    if s != "" && IsSpace(s[|s| - 1]) {
      LowerTrimsRight(s[..|s| - 1]);
      assert ToLower(s)[..|s| - 1] == ToLower(s[..|s| - 1]);
    }
  }

  lemma WordsOfLowerTrim(s: string)
    ensures Words(ToLower(Trim(s))) == Words(ToLower(s))
  {
    hide Words, ToLower, TrimLeft, TrimRight;
    LowerTrims(s);
    LowerTrims(TrimLeft(s));
    WordsOfTrimRight(ToLower(TrimLeft(s)));
    WordsOfTrimLeft(ToLower(s));
  }

  lemma SpacedStep(ws: seq<string>, w: string)
    ensures Spaced(ws + [w]) == if ws == [] then w else Spaced(ws) + " " + w
  {
    assert (ws + [w])[..|ws|] == ws;
  }

  lemma SpacedLonger(ws: seq<string>, c: char)
    requires ws != []
    ensures Spaced(ws[..|ws| - 1] + [ws[|ws| - 1] + [c]]) == Spaced(ws) + [c]
  {
    hide Spaced;
    var front, w := ws[..|ws| - 1], ws[|ws| - 1];
    assert ws == front + [w];
    SpacedStep(front, w);
    SpacedStep(front, w + [c]);
    Regroup(Spaced(front), w, c);
  }

  lemma Regroup(x: string, w: string, c: char)
    ensures x + " " + (w + [c]) == x + " " + w + [c]
  {
  }

  /** A collapsed text that starts with a word is its words, spaced, and a blank if it ends in one. */
  lemma {:induction false} CollapsedIsSpaced(t: string)
    requires Collapsed(t) && t != "" && !IsSpace(t[0])
    ensures Words(t) != [] && t == Spaced(Words(t)) + if IsSpace(t[|t| - 1]) then " " else ""
  {
    hide Words, Spaced, Collapsed;
    var front, c := t[..|t| - 1], t[|t| - 1];
    assert t == front + [c];
    WordsStep(front, c);
    if front == "" {
      NoWords();
      OneWord([c]);
    } else {
      CollapsedFront(t);
      assert front[0] == t[0];
      CollapsedIsSpaced(front);
      NextCharacter(front, Words(front), c);
    }
  }

  lemma OneWord(w: string)
    ensures Spaced([w]) == w && [] + [w] == [w]
  {
  }

  lemma CollapsedFront(t: string)
    requires Collapsed(t) && |t| > 1
    ensures var front, c := t[..|t| - 1], t[|t| - 1];
      Collapsed(front) && (IsSpace(c) ==> c == ' ' && !IsSpace(front[|front| - 1]))
  {
  }

  /** How a spaced text grows by one character. */
  lemma NextCharacter(front: string, ws: seq<string>, c: char)
    requires front != "" && ws != [] && front == Spaced(ws) + if IsSpace(front[|front| - 1]) then " " else ""
    requires IsSpace(c) ==> c == ' ' && !IsSpace(front[|front| - 1])
    ensures var more := if IsSpace(c) then ws
                        else if IsSpace(front[|front| - 1]) then ws + [[c]]
                        else ws[..|ws| - 1] + [ws[|ws| - 1] + [c]];
      front + [c] == Spaced(more) + if IsSpace(c) then " " else ""
  {
    hide Spaced;
    SpacedStep(ws, [c]);
    SpacedLonger(ws, c);
  }

  /** A normalised summary is its lower-cased words with one blank between them. */
  lemma NormalizedIsWords(s: string)
    ensures Normalized(s) == Spaced(Words(ToLower(s)))
  {
    hide Words, Spaced, Trim, ToLower, Collapse, Normalized;
    WordsOfNormalized(s);
    WordsOfLowerTrim(s);
    NormalizedIsTidy(s);
    if Normalized(s) == "" {
      NoWords();
    } else {
      CollapsedIsSpaced(Normalized(s));
    }
  }

  lemma NoWords()
    ensures Words("") == [] && Spaced([]) == ""
  {
  }

  lemma NormalizedIsTidy(s: string)
    ensures var t := Normalized(s); Collapsed(t) && Trimmed(t)
  {
    NormalizedIsStable(s);
  }

  /** Two summaries normalise alike exactly when they have the same words, case aside. */
  lemma SameWords(a: string, b: string)
    ensures Normalized(a) == Normalized(b) <==> Words(ToLower(a)) == Words(ToLower(b))
  {
    hide Words, Spaced, ToLower, Normalized;
    NormalizedIsWords(a);
    NormalizedIsWords(b);
    WordsAgain(a);
    WordsAgain(b);
  }

  lemma WordsAgain(s: string)
    ensures Words(Normalized(s)) == Words(ToLower(s))
  {
    hide Words, ToLower, Normalized;
    WordsOfNormalized(s);
    WordsOfLowerTrim(s);
  }

  // ---- the fields as they are spelled ----

  lemma {:induction false} PaddedReads(k: nat, n: nat)
    requires k > 0 && n < Ten(k)
    ensures DigitsValue(Padded(k, n)) == Some(n)
  {
    var s := Padded(k, n);
    assert s[|s| - 1] == DigitChar(n % 10);
    if k > 1 {
      PaddedReads(k - 1, n / 10);
      assert s[..|s| - 1] == Padded(k - 1, n / 10);
    } else {
      assert Ten(1) == 10;
    }
  }

  /** A weight's text: a sign if it is negative, the whole part, a point, and six digits, which
      together read as the weight in millionths. */
  lemma WeightTextReads(w: real) returns (whole: string, digits: string)
    ensures WeightText(w) == (if Micro(w) < 0 then "-" else "") + whole + "." + digits
    ensures |digits| == 6 && DigitsValue(whole).Some? && DigitsValue(digits).Some?
    ensures var size := DigitsValue(whole).value * 1000000 + DigitsValue(digits).value;
      Micro(w) == if Micro(w) < 0 then -size else size
  {
    hide Micro, Itoa, Padded, DigitsValue;
    var n := Magnitude(Micro(w));
    whole, digits := Itoa(n / 1000000), Padded(6, n % 1000000);
    DigitsOfItoa(n / 1000000);
    SixDigits();
    PaddedReads(6, n % 1000000);
  }

  lemma SixDigits()
    ensures Ten(6) == 1000000
  {
    assert Ten(3) == 1000;
  }

  /** What is hashed for a leaf: identifier, role, normalised summary, weight, sorted parents,
      sorted references and sorted pairs, each ended by the separator. */
  lemma PreimageSpelled(n: CausalNode)
    ensures Preimage(n)
         == n.id + [NUL] + RoleName(n.role) + [NUL] + Spaced(Words(ToLower(n.summary))) + [NUL] + WeightText(n.weight) + [NUL]
            + Join(Sort(n.parents, StringLE)) + [NUL] + Join(Sort(n.atomRefs, StringLE)) + [NUL] + Join(MetaPairs(n.meta)) + [NUL]
  {
    hide RoleName, Words, Spaced, ToLower, Normalized, WeightText, Join, Sort, StringLE, MetaPairs;
    NormalizedIsWords(n.summary);
    var a, b, c, d := n.id + [NUL], RoleName(n.role) + [NUL], Normalized(n.summary) + [NUL], WeightText(n.weight) + [NUL];
    assert Preimage(n) == a + (b + (c + (d + Tail(n))));
    assert a + (b + (c + (d + Tail(n)))) == a + b + c + d + Tail(n);
  }
}
