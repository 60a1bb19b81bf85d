/** Character classes and the few operations of Python's `str` and `re`
    that the scraper relies on, over `string` (a `seq<char>`). */
module Text {

  /** The regex class `[A-Za-z]`. */
  predicate IsAsciiLetter(c: char)
  {
    'A' <= c <= 'Z' || 'a' <= c <= 'z'
  }

  /** The regex class `[A-Za-z ]`: the characters of an animal name. */
  predicate IsNameChar(c: char)
  {
    IsAsciiLetter(c) || c == ' '
  }

  /** The regex class `[(A-Za-z)]`: letters and parentheses. */
  predicate IsQualifierChar(c: char)
  {
    IsAsciiLetter(c) || c == '(' || c == ')'
  }

  predicate IsDash(c: char)
  {
    c == '-'
  }

  /** Every character of `s` is in the class `p`. */
  predicate AllChars(s: string, p: char -> bool)
  {
    forall i :: 0 <= i < |s| ==> p(s[i])
  }

  /** The end of the longest run of `p`-characters that starts at `from`:
      what a greedy `[...]*` consumes from there. */
  function RunEnd(s: string, from: nat, p: char -> bool): (e: nat)
    requires from <= |s|
    ensures from <= e <= |s|
    ensures forall t :: from <= t < e ==> p(s[t])
    ensures e < |s| ==> !p(s[e])
    decreases |s| - from
  {
    if from < |s| && p(s[from]) then RunEnd(s, from + 1, p) else from
  }

  /** `pat` occurs in `s` starting at index `i`. */
  predicate OccursAt(s: string, pat: string, i: nat)
  {
    i + |pat| <= |s| && s[i..i + |pat|] == pat
  }

  /** `s.find(pat, from)`: the first index at or after `from` where `pat` occurs, or -1. */
  function FindFrom(s: string, pat: string, from: nat): (r: int)
    requires from <= |s|
    ensures r == -1 || from <= r <= |s|
    ensures r == -1 ==> forall i: nat :: from <= i <= |s| ==> !OccursAt(s, pat, i)
    ensures r != -1 ==> OccursAt(s, pat, r) && forall i: nat :: from <= i < r ==> !OccursAt(s, pat, i)
    decreases |s| - from
  {
    if OccursAt(s, pat, from) then from
    else if from == |s| then -1
    else FindFrom(s, pat, from + 1)
  }

  /** `s.find(pat)`: the first index where `pat` occurs in `s`, or -1 when it does not occur. */
  function Find(s: string, pat: string): (r: int)
    ensures -1 <= r <= |s|
    ensures r == -1 <==> forall i: nat :: i <= |s| ==> !OccursAt(s, pat, i)
    ensures r != -1 ==> OccursAt(s, pat, r) && forall i: nat :: i < r ==> !OccursAt(s, pat, i)
  {
    FindFrom(s, pat, 0)
  }

  /** `s.rstrip()` for a string of letters and spaces, the only kind the
      name parser strips: the trailing spaces are removed. */
  function RStripSpaces(s: string): (r: string)
    ensures r <= s
    ensures forall i :: |r| <= i < |s| ==> s[i] == ' '
    ensures r == [] || r[|r| - 1] != ' '
    decreases |s|
  {
    if s != [] && s[|s| - 1] == ' ' then RStripSpaces(s[..|s| - 1]) else s
  }

  /** `"\n".join(parts)` */
  function JoinLines(parts: seq<string>): string
    requires |parts| >= 1
    decreases |parts|
  {
    if |parts| == 1 then parts[0] else parts[0] + "\n" + JoinLines(parts[1..])
  }

  /** `s.split("\n")`: the pieces between newlines, so one more piece than newlines. */
  function SplitLines(s: string): (parts: seq<string>)
    ensures |parts| >= 1
    ensures forall p :: p in parts ==> '\n' !in p
    ensures JoinLines(parts) == s
    decreases |s|
  {
    if s == [] then [""]
    else if s[0] == '\n' then [""] + SplitLines(s[1..])
    else
      var rest := SplitLines(s[1..]);
      var parts := [[s[0]] + rest[0]] + rest[1..];
      assert parts[1..] == rest[1..];
      parts
  }

  /** A piece without newlines followed by a newline is split off whole. */
  lemma {:induction false} SplitAfterLine(p: string, t: string)
    requires '\n' !in p
    ensures SplitLines(p + "\n" + t) == [p] + SplitLines(t)
    decreases |p|
  {
    if p == [] {
      assert p + "\n" + t == ['\n'] + t;
      assert (['\n'] + t)[1..] == t;
    } else {
      SplitAfterLine(p[1..], t);
      assert (p + "\n" + t)[1..] == p[1..] + "\n" + t;
      assert [p[0]] + p[1..] == p;
    }
  }

  /** A string without newlines is one piece. */
  lemma {:induction false} SplitSingleLine(p: string)
    requires '\n' !in p
    ensures SplitLines(p) == [p]
    decreases |p|
  {
    if p != [] {
      SplitSingleLine(p[1..]);
      assert [p[0]] + p[1..] == p;
    }
  }

  /** Splitting undoes joining pieces that hold no newline. */
  lemma {:induction false} SplitJoin(parts: seq<string>)
    requires |parts| >= 1
    requires forall p :: p in parts ==> '\n' !in p
    ensures SplitLines(JoinLines(parts)) == parts
    decreases |parts|
  {
    if |parts| == 1 {
      SplitSingleLine(parts[0]);
    } else {
      SplitJoin(parts[1..]);
      SplitAfterLine(parts[0], JoinLines(parts[1..]));
      assert [parts[0]] + parts[1..] == parts;
    }
  }

  /** A run that ends at `e` is the longest one. */
  lemma {:induction false} RunEndIs(s: string, from: nat, e: nat, p: char -> bool)
    requires from <= e <= |s|
    requires forall t :: from <= t < e ==> p(s[t])
    requires e == |s| || !p(s[e])
    ensures RunEnd(s, from, p) == e
    decreases e - from
  {
    if from < e {
      RunEndIs(s, from + 1, e, p);
    }
  }

  /** Stripping a single trailing space. */
  lemma RStripOneSpace(s: string)
    requires |s| >= 2 && s[|s| - 1] == ' ' && s[|s| - 2] != ' '
    ensures RStripSpaces(s) == s[..|s| - 1]
  {
    var r := RStripSpaces(s);
    assert r != s;
    assert !(|r| <= |s| - 2);
  }
}
