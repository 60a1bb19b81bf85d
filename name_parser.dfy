/** The name cell parser of `AnimalsScrapper._parse_animal_name`: a raw name
    cell becomes a name and a synonym (the animal the row refers to, or "").

    The synonym pattern `([A-Za-z ]+)([(A-Za-z)]*)-* See ([A-Za-z ]+)` is
    applied with `re.match`, anchored at the start only. A match is described
    by three positions (`SeeMatch`); Python's backtracking matcher tries the
    greedy choices first, so the match it reports is the feasible one that
    comes first in `TriedBefore` order. `MatchSee` finds it without trying
    every position and is proved to agree with that description. */
module NameParser {
  import opened Text
  import opened Results

  const SeeMarker: string := " See "
  const AlsoSeeMarker: string := "Also see"

  /** Group 1 is `s[..nameEnd]`, group 2 `s[nameEnd..qualEnd]`, the dashes
      `s[qualEnd..seeAt]`, `" See "` starts at `seeAt` and group 3 right after it. */
  datatype SeeMatch = SeeMatch(nameEnd: nat, qualEnd: nat, seeAt: nat)

  /** Where group 3 starts. */
  function SynonymStart(m: SeeMatch): nat
  {
    m.seeAt + |SeeMarker|
  }

  /** The pattern matches a prefix of `s` with these group boundaries
      (group 3 needs one character; it then takes the whole run). */
  predicate Feasible(s: string, m: SeeMatch)
  {
    && 1 <= m.nameEnd <= m.qualEnd <= m.seeAt
    && SynonymStart(m) < |s|
    && (forall t :: 0 <= t < m.nameEnd ==> IsNameChar(s[t]))
    && (forall t :: m.nameEnd <= t < m.qualEnd ==> IsQualifierChar(s[t]))
    && (forall t :: m.qualEnd <= t < m.seeAt ==> IsDash(s[t]))
    && s[m.seeAt..SynonymStart(m)] == SeeMarker
    && IsNameChar(s[SynonymStart(m)])
  }

  /** Every quantifier is greedy: the matcher tries a longer group 1 first,
      then a longer group 2, then more dashes. */
  predicate TriedBefore(a: SeeMatch, b: SeeMatch)
  {
    || a.nameEnd > b.nameEnd
    || (a.nameEnd == b.nameEnd && a.qualEnd > b.qualEnd)
    || (a.nameEnd == b.nameEnd && a.qualEnd == b.qualEnd && a.seeAt > b.seeAt)
  }

  /** The only candidate with group 1 ending at `i`: group 2 and the dashes
      each take their longest run. */
  function CandidateAt(s: string, i: nat): SeeMatch
    requires i <= |s|
  {
    var j := RunEnd(s, i, IsQualifierChar);
    SeeMatch(i, j, RunEnd(s, j, IsDash))
  }

  /** The tail of the pattern, `" See "` and one name character, follows the candidate. */
  predicate SeeFollows(s: string, m: SeeMatch)
  {
    SynonymStart(m) < |s| && s[m.seeAt..SynonymStart(m)] == SeeMarker && IsNameChar(s[SynonymStart(m)])
  }

  /** Group 2 and the dashes are forced: what follows group 2 is a dash or
      the space of `" See "`, neither of which group 2 accepts, and what
      follows the dashes is that space. So a feasible match is the candidate
      for its group-1 end, and group 1 lies inside the leading name run. */
  lemma FeasibleIsCandidate(s: string, m: SeeMatch)
    requires Feasible(s, m)
    ensures m.nameEnd <= RunEnd(s, 0, IsNameChar)
    ensures m == CandidateAt(s, m.nameEnd)
  {
    assert s[m.seeAt] == SeeMarker[0];
    // neither the character after group 2 nor the one after the dashes is a qualifier character
    assert m.qualEnd < |s| && !IsQualifierChar(s[m.qualEnd]);
    assert m.seeAt < |s| && !IsDash(s[m.seeAt]);
  }

  /** Backtracking over group 1, from the end `i` down to one character. */
  function SearchDown(s: string, i: nat): Option<SeeMatch>
    requires i <= RunEnd(s, 0, IsNameChar)
    decreases i
  {
    if i == 0 then None
    else
      var c := CandidateAt(s, i);
      if SeeFollows(s, c) then Some(c) else SearchDown(s, i - 1)
  }

  /** What the search finds is a feasible match with group 1 ending at `i`
      or earlier. */
  lemma {:induction false} SearchDownFeasible(s: string, i: nat)
    requires i <= RunEnd(s, 0, IsNameChar)
    ensures var r := SearchDown(s, i);
      r.Some? ==> Feasible(s, r.value) && r.value.nameEnd <= i
    decreases i
  {
    if i > 0 {
      CandidateFeasible(s, i);
      SearchDownFeasible(s, i - 1);
    }
  }

  /** When the candidate for group-1 end `k` is followed by `" See "`, the
      search from `i >= k` finds a match whose group 1 ends at `k` or later. */
  lemma {:induction false} SearchDownLargest(s: string, i: nat, k: nat)
    requires 1 <= k <= i <= RunEnd(s, 0, IsNameChar)
    requires SeeFollows(s, CandidateAt(s, k))
    ensures SearchDown(s, i).Some? && SearchDown(s, i).value.nameEnd >= k
    decreases i
  {
    if i > k && !SeeFollows(s, CandidateAt(s, i)) {
      SearchDownLargest(s, i - 1, k);
    }
  }

  /** Two different feasible matches are ordered by where group 1 ends. */
  lemma FeasibleOrdered(s: string, r: SeeMatch, m: SeeMatch)
    requires Feasible(s, r) && Feasible(s, m) && r != m
    requires r.nameEnd >= m.nameEnd
    ensures TriedBefore(r, m)
  {
    FeasibleIsCandidate(s, r);
    FeasibleIsCandidate(s, m);
  }

  /** The candidate for a group-1 end inside the name run is feasible
      exactly when `" See "` and a name character follow it. */
  lemma CandidateFeasible(s: string, i: nat)
    requires 1 <= i <= RunEnd(s, 0, IsNameChar)
    ensures Feasible(s, CandidateAt(s, i)) <==> SeeFollows(s, CandidateAt(s, i))
  {
  }

  /** `re.match("([A-Za-z ]+)([(A-Za-z)]*)-* See ([A-Za-z ]+)", s)`: the
      first feasible match in the matcher's order, or none at all. */
  function MatchSee(s: string): (r: Option<SeeMatch>)
    ensures r.Some? ==> Feasible(s, r.value)
    ensures r.Some? ==> forall m :: Feasible(s, m) && m != r.value ==> TriedBefore(r.value, m)
    ensures r.None? <==> forall m :: !Feasible(s, m)
  {
    var n := RunEnd(s, 0, IsNameChar);
    SearchDownFeasible(s, n);
    assert forall m :: Feasible(s, m) ==> SearchDown(s, n).Some? && SearchDown(s, n).value.nameEnd >= m.nameEnd by {
      forall m | Feasible(s, m)
        ensures SearchDown(s, n).Some? && SearchDown(s, n).value.nameEnd >= m.nameEnd
      {
        FeasibleIsCandidate(s, m);
        SearchDownLargest(s, n, m.nameEnd);
      }
    }
    assert forall m :: Feasible(s, m) && SearchDown(s, n).Some? && m != SearchDown(s, n).value ==>
        TriedBefore(SearchDown(s, n).value, m) by {
      forall m | Feasible(s, m) && SearchDown(s, n).Some? && m != SearchDown(s, n).value
        ensures TriedBefore(SearchDown(s, n).value, m)
      {
        FeasibleOrdered(s, SearchDown(s, n).value, m);
      }
    }
    SearchDown(s, n)
  }

  /** The name text before the first "Also see" (line 138), or all of it. */
  function Truncated(raw: string): (t: string)
    ensures t <= raw
    ensures forall i: nat :: !OccursAt(t, AlsoSeeMarker, i)
    ensures t != raw ==> OccursAt(raw, AlsoSeeMarker, |t|)
  {
    var idx := Find(raw, AlsoSeeMarker);
    if idx == -1 then raw
    else
      var t := raw[..idx];
      assert forall i: nat :: OccursAt(t, AlsoSeeMarker, i) ==> OccursAt(raw, AlsoSeeMarker, i) by {
        forall i: nat | OccursAt(t, AlsoSeeMarker, i) ensures OccursAt(raw, AlsoSeeMarker, i) {
          assert raw[i..i + |AlsoSeeMarker|] == t[i..i + |AlsoSeeMarker|];
        }
      }
      t
  }

  /** `re.findall("^[A-Za-z ]+", t)[0]` raised IndexError: the text left
      after truncation does not start with a letter or a space. */
  datatype NameError = NoLeadingName

  /** `_parse_animal_name(raw)`, a pair (name, synonym). */
  function ParseAnimalName(raw: string): (r: Result<(string, string), NameError>)
    ensures r.Err? <==>
      MatchSee(raw).None? && (Truncated(raw) == [] || !IsNameChar(Truncated(raw)[0]))
    ensures r.Ok? ==> (r.value.1 != "" <==> MatchSee(raw).Some?)
    ensures r.Ok? ==> AllChars(r.value.0, IsNameChar) && AllChars(r.value.1, IsNameChar)
  {
    var m := MatchSee(raw);
    if m.Some? then
      var g3 := SynonymStart(m.value);
      Ok((raw[..m.value.nameEnd], raw[g3..RunEnd(raw, g3, IsNameChar)]))
    else
      var t := Truncated(raw);
      var lead := t[..RunEnd(t, 0, IsNameChar)];
      if lead == [] then Err(NoLeadingName) else Ok((RStripSpaces(lead), ""))
  }

  /** When the synonym pattern matches the original text, the name is group 1
      and the synonym is group 3, neither trimmed, whether or not "Also see"
      occurs: the name is the start of `raw`, then come group 2, the dashes
      and `" See "`, then the synonym, which is the whole letter/space run
      found there. */
  lemma {:induction false} MatchedNameAndSynonym(raw: string)
    requires MatchSee(raw).Some?
    ensures ParseAnimalName(raw).Ok?
    ensures var (name, synonym) := ParseAnimalName(raw).value;
      var m := MatchSee(raw).value;
      var g3 := SynonymStart(m);
      && name != [] && synonym != []
      && name == raw[..m.nameEnd]
      && AllChars(raw[m.nameEnd..m.qualEnd], IsQualifierChar)
      && AllChars(raw[m.qualEnd..m.seeAt], IsDash)
      && raw[m.seeAt..g3] == SeeMarker
      && g3 + |synonym| <= |raw| && raw[g3..g3 + |synonym|] == synonym
      && (g3 + |synonym| == |raw| || !IsNameChar(raw[g3 + |synonym|]))
  {
    var m := MatchSee(raw).value;
    var g3 := SynonymStart(m);
    var e := RunEnd(raw, g3, IsNameChar);
    assert ParseAnimalName(raw) == Ok((raw[..m.nameEnd], raw[g3..e]));
    assert |raw[g3..e]| == e - g3;
    QualifierAndDashRuns(raw, m);
  }

  lemma QualifierAndDashRuns(raw: string, m: SeeMatch)
    requires Feasible(raw, m)
    ensures AllChars(raw[m.nameEnd..m.qualEnd], IsQualifierChar)
    ensures AllChars(raw[m.qualEnd..m.seeAt], IsDash)
  {
  }

  /** Without a match, the name is the leading letter/space run of the text
      before the first "Also see", with its trailing spaces removed; the
      synonym is empty. */
  lemma {:induction false} UnmatchedName(raw: string)
    requires MatchSee(raw).None?
    requires ParseAnimalName(raw).Ok?
    ensures var (name, synonym) := ParseAnimalName(raw).value;
      var t := Truncated(raw);
      var e := RunEnd(t, 0, IsNameChar);
      && synonym == ""
      && name <= t <= raw
      && (name == [] || name[|name| - 1] != ' ')
      && |name| <= e
      && (forall i :: |name| <= i < e ==> t[i] == ' ')
      && (e == |t| || !IsNameChar(t[e]))
  {
    var t := Truncated(raw);
    var e := RunEnd(t, 0, IsNameChar);
    var name := RStripSpaces(t[..e]);
    assert forall i :: |name| <= i < e ==> t[i] == t[..e][i];
  }

  /** A name with a footnote digit: the digit and what follows are dropped. */
  lemma TigerExample()
    ensures ParseAnimalName(TigerCell) == Ok(("Tiger", ""))
  {
    TigerNoMatch();
    TigerRun();
    ParseUnmatched(TigerCell, 5);
    assert TigerCell[..5] == "Tiger";
  }

  const TigerCell: string := "Tiger2"

  lemma TigerNoMatch()
    ensures MatchSee(TigerCell).None?
  {
    assert forall i :: 0 <= i < |TigerCell| ==> TigerCell[i] != 'S';
    NoCapitalS(TigerCell);
  }

  lemma TigerRun()
    ensures Truncated(TigerCell) == TigerCell
    ensures RunEnd(TigerCell, 0, IsNameChar) == 5
    ensures RStripSpaces(TigerCell[..5]) == TigerCell[..5]
  {
    assert forall i :: 0 <= i < |TigerCell| ==> TigerCell[i] != 'A';
    NotTruncated(TigerCell);
    RunEndIs(TigerCell, 0, 5, IsNameChar);
    assert TigerCell[..5][4] == 'r';
  }

  /** The capital `S` of `" See "` sits right after the dashes. */
  lemma SeeFollowsLetter(s: string, m: SeeMatch)
    requires SeeFollows(s, m)
    ensures s[m.seeAt + 1] == 'S'
  {
    assert s[m.seeAt + 1] == s[m.seeAt..SynonymStart(m)][1];
  }

  /** Without a capital `S` the synonym pattern cannot match. */
  lemma NoCapitalS(s: string)
    requires forall i :: 0 <= i < |s| ==> s[i] != 'S'
    ensures MatchSee(s).None?
  {
    forall m | Feasible(s, m) ensures false {
      assert SeeFollows(s, m);
      SeeFollowsLetter(s, m);
    }
  }

  /** Truncation, if any, happens at a capital `A`. */
  lemma TruncatedAtA(raw: string)
    ensures Truncated(raw) == raw || raw[|Truncated(raw)|] == 'A'
  {
    var t := Truncated(raw);
    if t != raw {
      assert raw[|t|] == raw[|t|..|t| + |AlsoSeeMarker|][0];
    }
  }

  /** Truncation at the one place "Also see" can start. */
  lemma TruncatedAt(raw: string, i: nat)
    requires OccursAt(raw, AlsoSeeMarker, i)
    requires forall j :: 0 <= j < |raw| && j != i ==> raw[j] != 'A'
    ensures Truncated(raw) == raw[..i]
  {
    var t := Truncated(raw);
    assert t == raw ==> OccursAt(t, AlsoSeeMarker, i);
    TruncatedAtA(raw);
  }

  /** Without a capital `A` there is no "Also see" to cut at. */
  lemma NotTruncated(raw: string)
    requires forall j :: 0 <= j < |raw| ==> raw[j] != 'A'
    ensures Truncated(raw) == raw
  {
    TruncatedAtA(raw);
  }

  const LionCell: string := "Lion Also seeFeline"

  lemma LionNoMatch()
    ensures MatchSee(LionCell).None?
  {
    assert forall i :: 0 <= i < |LionCell| ==> LionCell[i] != 'S';
    NoCapitalS(LionCell);
  }

  lemma LionTruncated()
    ensures Truncated(LionCell) == LionCell[..5]
  {
    assert LionCell[5..13] == AlsoSeeMarker;
    assert forall j :: 0 <= j < |LionCell| && j != 5 ==> LionCell[j] != 'A';
    TruncatedAt(LionCell, 5);
  }

  lemma LionRun()
    ensures RunEnd(LionCell[..5], 0, IsNameChar) == 5
    ensures LionCell[..5][4] == ' ' && LionCell[..5][3] != ' '
    ensures LionCell[..5][..4] == "Lion"
  {
    RunEndIs(LionCell[..5], 0, 5, IsNameChar);
  }

  /** "Also see" glued to the name: the name is cut before it and the
      synonym pattern, which wants a capital `S`, does not match. */
  lemma AlsoSeeExample()
    ensures ParseAnimalName(LionCell) == Ok(("Lion", ""))
  {
    LionNoMatch();
    LionTruncated();
    LionRun();
    ParseUnmatchedStripOne(LionCell, 5);
  }

  /** With a match, parsing returns groups 1 and 3. */
  lemma ParseMatched(raw: string)
    requires MatchSee(raw).Some?
    ensures var m := MatchSee(raw).value;
      ParseAnimalName(raw) == Ok((raw[..m.nameEnd], raw[SynonymStart(m)..RunEnd(raw, SynonymStart(m), IsNameChar)]))
  {
  }

  const CattleCell: string := "Cattle - See Cow"

  lemma CattleRuns()
    ensures RunEnd(CattleCell, 0, IsNameChar) == 7
    ensures RunEnd(CattleCell, 7, IsQualifierChar) == 7
    ensures RunEnd(CattleCell, 7, IsDash) == 8
    ensures RunEnd(CattleCell, 13, IsNameChar) == 16
    ensures CattleCell[8..13] == SeeMarker
  {
    CattleNameRun();
    RunEndIs(CattleCell, 7, 7, IsQualifierChar);
    RunEndIs(CattleCell, 7, 8, IsDash);
    CattleSynonymRun();
  }

  lemma CattleNameRun()
    ensures RunEnd(CattleCell, 0, IsNameChar) == 7
  {
    RunEndIs(CattleCell, 0, 7, IsNameChar);
  }

  lemma CattleSynonymRun()
    ensures RunEnd(CattleCell, 13, IsNameChar) == 16
  {
    RunEndIs(CattleCell, 13, 16, IsNameChar);
  }

  lemma CattleMatch()
    ensures MatchSee(CattleCell) == Some(SeeMatch(7, 7, 8))
  {
    var expected := SeeMatch(7, 7, 8);
    CattleRuns();
    assert Feasible(CattleCell, expected) by {
      assert forall t :: 0 <= t < 7 ==> IsNameChar(CattleCell[t]);
    }
    FeasibleIsCandidate(CattleCell, MatchSee(CattleCell).value);
  }

  /** A reference to another animal: group 1 keeps the space before the dash. */
  lemma SeeExample()
    ensures ParseAnimalName(CattleCell) == Ok(("Cattle ", "Cow"))
  {
    CattleMatch();
    CattleRuns();
    ParseMatched(CattleCell);
    assert CattleCell[..7] == "Cattle ";
    assert CattleCell[13..16] == "Cow";
  }

  const WhaleCell: string := "Whale (Cetacean) - See Cetacean"

  /** Without a match, parsing takes the leading run of the truncated text. */
  lemma ParseUnmatched(raw: string, e: nat)
    requires MatchSee(raw).None?
    requires e <= |Truncated(raw)| && RunEnd(Truncated(raw), 0, IsNameChar) == e && e > 0
    ensures ParseAnimalName(raw) == Ok((RStripSpaces(Truncated(raw)[..e]), ""))
  {
  }

  /** The runs the matcher meets in the whale cell. */
  lemma WhaleNameRun()
    ensures RunEnd(WhaleCell, 0, IsNameChar) == 6
  {
    RunEndIs(WhaleCell, 0, 6, IsNameChar);
  }

  lemma WhaleQualifierRuns()
    ensures RunEnd(WhaleCell, 6, IsQualifierChar) == 16
  {
    RunEndIs(WhaleCell, 6, 16, IsQualifierChar);
  }

  lemma WhaleShortQualifierRuns(n: nat)
    requires 1 <= n <= 5
    ensures RunEnd(WhaleCell, n, IsQualifierChar) == 5
  {
    RunEndIs(WhaleCell, n, 5, IsQualifierChar);
  }

  lemma WhaleDashRuns()
    ensures RunEnd(WhaleCell, 16, IsDash) == 16
    ensures RunEnd(WhaleCell, 5, IsDash) == 5
  {
    RunEndIs(WhaleCell, 16, 16, IsDash);
    RunEndIs(WhaleCell, 5, 5, IsDash);
  }

  /** Group 1 inside "Whale": group 2 takes nothing, no dash follows, and the
      `(` sits where the `S` should be. */
  lemma WhaleShortCandidate(n: nat)
    requires 1 <= n <= 5
    ensures !SeeFollows(WhaleCell, CandidateAt(WhaleCell, n))
  {
    WhaleShortQualifierRuns(n);
    WhaleDashRuns();
    assert WhaleCell[6] == '(';
    if SeeFollows(WhaleCell, CandidateAt(WhaleCell, n)) {
      SeeFollowsLetter(WhaleCell, CandidateAt(WhaleCell, n));
      assert false;
    }
  }

  /** Group 1 is "Whale ": group 2 takes "(Cetacean)", no dash follows, and
      the dash sits where the `S` should be. */
  lemma WhaleLongCandidate()
    ensures !SeeFollows(WhaleCell, CandidateAt(WhaleCell, 6))
  {
    WhaleQualifierRuns();
    WhaleDashRuns();
    assert WhaleCell[17] == '-';
    if SeeFollows(WhaleCell, CandidateAt(WhaleCell, 6)) {
      SeeFollowsLetter(WhaleCell, CandidateAt(WhaleCell, 6));
      assert false;
    }
  }

  /** Every candidate stops before a space: group 1 ends inside "Whale " and
      leaves `" ("` or the space before the dash where `" See "` should be. */
  lemma WhaleInfeasible(m: SeeMatch)
    ensures !Feasible(WhaleCell, m)
  {
    if Feasible(WhaleCell, m) {
      WhaleNameRun();
      FeasibleIsCandidate(WhaleCell, m);
      assert SeeFollows(WhaleCell, m);
      if m.nameEnd == 6 {
        WhaleLongCandidate();
      } else {
        WhaleShortCandidate(m.nameEnd);
      }
      assert false;
    }
  }

  lemma WhaleNoMatch()
    ensures MatchSee(WhaleCell).None?
  {
    forall m ensures !Feasible(WhaleCell, m) {
      WhaleInfeasible(m);
    }
  }

  lemma WhaleNotTruncated()
    ensures Truncated(WhaleCell) == WhaleCell
  {
    var raw := WhaleCell;
    assert forall j :: 0 <= j < |raw| ==> raw[j] != 'A';
    NotTruncated(raw);
  }

  /** A parenthesised qualifier followed by " - See ": group 2 must be
      followed by the dashes directly, so the space before the dash defeats
      the pattern and the row gets no synonym. */
  lemma QualifiedSeeExample()
    ensures ParseAnimalName(WhaleCell) == Ok(("Whale", ""))
  {
    WhaleNoMatch();
    WhaleNotTruncated();
    WhaleNameRun();
    WhalePrefix();
    ParseUnmatchedStripOne(WhaleCell, 6);
    assert WhaleCell[..5] == "Whale";
  }

  lemma WhalePrefix()
    ensures WhaleCell[..5] == "Whale" && WhaleCell[4] != ' ' && WhaleCell[5] == ' '
  {
  }

  /** Without a match, a leading run that ends in exactly one space gives the run less that space. */
  lemma ParseUnmatchedStripOne(raw: string, e: nat)
    requires MatchSee(raw).None?
    requires 2 <= e <= |Truncated(raw)| && RunEnd(Truncated(raw), 0, IsNameChar) == e
    requires Truncated(raw)[e - 1] == ' ' && Truncated(raw)[e - 2] != ' '
    ensures ParseAnimalName(raw) == Ok((Truncated(raw)[..e - 1], ""))
  {
    var lead := Truncated(raw)[..e];
    ParseUnmatched(raw, e);
    RStripOneSpace(lead);
    assert lead[..e - 1] == Truncated(raw)[..e - 1];
  }

  /** A cell that starts with "Also see" leaves nothing to name the animal:
      the Python code raises IndexError. */
  lemma LeadingAlsoSeeFails()
    ensures ParseAnimalName(AlsoSeeCell) == Err(NoLeadingName)
  {
    AlsoSeeCellNoMatch();
    AlsoSeeCellTruncated();
  }

  const AlsoSeeCell: string := "Also see Cat"

  lemma AlsoSeeCellNoMatch()
    ensures MatchSee(AlsoSeeCell).None?
  {
    assert forall i :: 0 <= i < |AlsoSeeCell| ==> AlsoSeeCell[i] != 'S';
    NoCapitalS(AlsoSeeCell);
  }

  lemma AlsoSeeCellTruncated()
    ensures Truncated(AlsoSeeCell) == []
  {
    assert AlsoSeeCell[0..8] == AlsoSeeMarker;
    assert forall j :: 0 <= j < |AlsoSeeCell| && j != 0 ==> AlsoSeeCell[j] != 'A';
    TruncatedAt(AlsoSeeCell, 0);
  }
}
