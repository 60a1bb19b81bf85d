/** The collateral-adjective cell of a table row (AnimalsScrapper.py lines
    114-116): its text, one adjective per line, is split at newlines and only
    the lines made of ASCII letters are kept. */
module Adjectives {
  import opened Text

  /** One or more ASCII letters and nothing else. */
  predicate IsWord(t: string)
  {
    |t| > 0 && AllChars(t, IsAsciiLetter)
  }

  /** `re.match('^[A-Za-z]+$', t)`: `$` matches at the end of the string and
      also just before a newline that ends it. */
  predicate MatchesWordPattern(t: string)
  {
    IsWord(t) || (|t| >= 2 && t[|t| - 1] == '\n' && IsWord(t[..|t| - 1]))
  }

  /** On a line cut out by `split("\n")` the pattern means exactly "a word". */
  lemma DollarHarmless(t: string)
    requires '\n' !in t
    ensures MatchesWordPattern(t) <==> IsWord(t)
  {
    if |t| >= 2 {
      assert t[|t| - 1] in t;
    }
  }

  /** `a` can be obtained from `b` by deleting elements. */
  predicate IsSubsequence<T(==)>(a: seq<T>, b: seq<T>)
    decreases |b|
  {
    || a == []
    || (b != [] && (if a[0] == b[0] then IsSubsequence(a[1..], b[1..]) else IsSubsequence(a, b[1..])))
  }

  /** `[adj for adj in tokens if re.match('^[A-Za-z]+$', adj)]` */
  function KeepWords(tokens: seq<string>): (kept: seq<string>)
    ensures forall t :: t in kept <==> t in tokens && MatchesWordPattern(t)
    decreases |tokens|
  {
    if tokens == [] then []
    else
      var rest := KeepWords(tokens[1..]);
      if MatchesWordPattern(tokens[0]) then [tokens[0]] + rest else rest
  }

  /** The kept lines are in their original order. */
  lemma {:induction false} KeepWordsSubsequence(tokens: seq<string>)
    ensures IsSubsequence(KeepWords(tokens), tokens)
    decreases |tokens|
  {
    if tokens != [] {
      KeepWordsSubsequence(tokens[1..]);
      var rest := KeepWords(tokens[1..]);
      if MatchesWordPattern(tokens[0]) {
        assert ([tokens[0]] + rest)[1..] == rest;
      } else {
        // the first kept line of the rest matches, so it is not tokens[0]
        assert rest != [] ==> rest[0] in rest && rest[0] != tokens[0];
      }
    }
  }

  /** Each line that matches is kept as often as it occurs; no other line is kept. */
  lemma {:induction false} KeepWordsCounts(tokens: seq<string>, t: string)
    ensures multiset(KeepWords(tokens))[t] == if MatchesWordPattern(t) then multiset(tokens)[t] else 0
    decreases |tokens|
  {
    if tokens != [] {
      KeepWordsCounts(tokens[1..], t);
      assert tokens == [tokens[0]] + tokens[1..];
    }
  }

  /** Filtering a concatenation filters each part. */
  lemma {:induction false} KeepWordsAppend(a: seq<string>, b: seq<string>)
    ensures KeepWords(a + b) == KeepWords(a) + KeepWords(b)
    decreases |a|
  {
    if a == [] {
      assert a + b == b;
    } else {
      var ab := a + b;
      assert ab[0] == a[0] && ab[1..] == a[1..] + b;
      KeepWordsAppend(a[1..], b);
      var head := if MatchesWordPattern(a[0]) then [a[0]] else [];
      assert KeepWords(ab) == head + KeepWords(a[1..] + b);
      assert KeepWords(a) == head + KeepWords(a[1..]);
      assert head + (KeepWords(a[1..]) + KeepWords(b)) == (head + KeepWords(a[1..])) + KeepWords(b);
    }
  }

  /** Lines that all match are kept as they are, so filtering twice is filtering once. */
  lemma {:induction false} KeepWordsKeepsMatching(tokens: seq<string>)
    requires forall t :: t in tokens ==> MatchesWordPattern(t)
    ensures KeepWords(tokens) == tokens
    decreases |tokens|
  {
    if tokens != [] {
      KeepWordsKeepsMatching(tokens[1..]);
    }
  }

  lemma KeepWordsIdempotent(tokens: seq<string>)
    ensures KeepWords(KeepWords(tokens)) == KeepWords(tokens)
  {
    KeepWordsKeepsMatching(KeepWords(tokens));
  }

  /** Footnote marks, digits and dashes on their own lines are dropped. */
  lemma KeepWordsExample()
    ensures KeepWords(["leonine", "123", "?", "feline", "-"]) == ["leonine", "feline"]
  {
    var tokens := ["leonine", "123", "?", "feline", "-"];
    assert MatchesWordPattern("leonine") && MatchesWordPattern("feline");
    assert !MatchesWordPattern("123") by { assert !IsAsciiLetter("123"[0]); }
    assert !MatchesWordPattern("?") by { assert !IsAsciiLetter("?"[0]); }
    assert !MatchesWordPattern("-") by { assert !IsAsciiLetter("-"[0]); }
    assert tokens[1..] == ["123", "?", "feline", "-"];
    assert tokens[1..][1..] == ["?", "feline", "-"];
    assert tokens[1..][1..][1..] == ["feline", "-"];
    assert tokens[1..][1..][1..][1..] == ["-"];
    assert ["-"][1..] == [];
  }

  /** A cell holding one word yields that word. */
  lemma SingleWordCell(w: string)
    requires IsWord(w)
    ensures CellAdjectives(w) == [w]
  {
    assert '\n' !in w by {
      forall i | 0 <= i < |w| ensures w[i] != '\n' {
        assert IsAsciiLetter(w[i]);
      }
    }
    SplitSingleLine(w);
    assert MatchesWordPattern(w);
    assert KeepWords([w]) == [w] + KeepWords([w][1..]);
    assert [w][1..] == [];
  }

  /** Lines 114-116: the cell text split into lines, the words kept in order. */
  function CellAdjectives(cellText: string): (adjectives: seq<string>)
    ensures forall a :: a in adjectives ==> IsWord(a)
    ensures forall t :: t in adjectives <==> t in SplitLines(cellText) && IsWord(t)
    ensures IsSubsequence(adjectives, SplitLines(cellText))
    ensures forall t :: multiset(adjectives)[t] == if IsWord(t) then multiset(SplitLines(cellText))[t] else 0
  {
    var lines := SplitLines(cellText);
    forall t | t in lines ensures MatchesWordPattern(t) <==> IsWord(t) {
      DollarHarmless(t);
    }
    forall t ensures multiset(KeepWords(lines))[t] == if IsWord(t) then multiset(lines)[t] else 0 {
      KeepWordsCounts(lines, t);
      if t in lines {
        DollarHarmless(t);
      }
    }
    KeepWordsSubsequence(lines);
    KeepWords(lines)
  }
}
