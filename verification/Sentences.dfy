// How the chunker cuts a paragraph into sentences: the matches of
// /[^.!?]+[.!?]+\s*|[^.!?]+$/g, and exactly which paragraphs they cover.
module Sentences {
  import opened Text

  predicate IsMark(c: char) {
    c == '.' || c == '!' || c == '?'
  }

  /** How many characters the text starts with that are no marks, and that are marks. */
  function PlainRun(s: string): (n: nat)
    ensures n <= |s| && (s != "" && !IsMark(s[0]) ==> n > 0)
  {
    if s != "" && !IsMark(s[0]) then PlainRun(s[1..]) + 1 else 0
  }

  function MarkRun(s: string): (n: nat)
    ensures n <= |s|
  {
    if s != "" && IsMark(s[0]) then MarkRun(s[1..]) + 1 else 0
  }

  /** The length of the match at the start of a text that does not start with a mark: a plain run,
      the marks after it, and the white space after those. */
  function MatchLength(s: string): (n: nat)
    requires s != "" && !IsMark(s[0])
    ensures 0 < n <= |s|
  {
    var plain := PlainRun(s);
    var marks := MarkRun(s[plain..]);
    if marks == 0 then plain else plain + marks + SpaceRun(s[plain + marks..])
  }

  /** The matches, from left to right; no match starts at a mark. */
  function Matches(s: string): seq<string>
    decreases |s|
  {
    if s == "" then []
    else if IsMark(s[0]) then Matches(s[1..])
    else [s[..MatchLength(s)]] + Matches(s[MatchLength(s)..])
  }

  /** The matches, or the whole text when there is none. */
  function Split(s: string): (parts: seq<string>)
    ensures parts != []
  {
    if Matches(s) == [] then [s] else Matches(s)
  }

  // ---------------------------------------------------------------- what is covered

  /** Two marks with white space, and nothing else, between them. */
  predicate MarksApart(s: string, i: int, j: int) {
    0 <= i && i + 1 < j < |s| && IsMark(s[i]) && IsMark(s[j]) && AllSpace(s[i + 1..j])
  }

  /** The text starts with no mark, and no marks are kept apart by white space only. */
  ghost predicate NothingSkipped(s: string) {
    (s != "" ==> !IsMark(s[0])) && forall i, j :: !MarksApart(s, i, j)
  }

  predicate AllMarks(s: string) {
    forall i :: 0 <= i < |s| ==> IsMark(s[i])
  }

  /** The condition for the sentences to hold the whole text. */
  ghost predicate Covered(s: string) {
    AllMarks(s) || NothingSkipped(s)
  }

  lemma {:induction false} PlainRunIs(s: string)
    ensures forall i :: 0 <= i < PlainRun(s) ==> !IsMark(s[i])
    ensures PlainRun(s) < |s| ==> IsMark(s[PlainRun(s)])
  {
    if s != "" && !IsMark(s[0]) {
      PlainRunIs(s[1..]);
      assert forall i :: 0 < i < PlainRun(s) ==> s[i] == s[1..][i - 1];
    }
  }

  lemma {:induction false} MarkRunIs(s: string)
    ensures forall i :: 0 <= i < MarkRun(s) ==> IsMark(s[i])
    ensures MarkRun(s) < |s| ==> !IsMark(s[MarkRun(s)])
  {
    if s != "" && IsMark(s[0]) {
      MarkRunIs(s[1..]);
      assert forall i :: 0 < i < MarkRun(s) ==> s[i] == s[1..][i - 1];
    }
  }

  /** Plain characters, marks, and where the marks end. */
  lemma MarksShape(s: string) returns (p: nat, m: nat)
    requires s != "" && !IsMark(s[0])
    ensures p == PlainRun(s) && m == p + MarkRun(s[p..]) && 0 < p <= m <= |s|
    ensures forall i :: 0 <= i < p ==> !IsMark(s[i])
    ensures forall i :: p <= i < m ==> IsMark(s[i])
    ensures p < |s| ==> p < m
    ensures m < |s| ==> !IsMark(s[m])
  {
    p := PlainRun(s);
    PlainRunIs(s);
    var rest := s[p..];
    m := p + MarkRun(rest);
    MarkRunIs(rest);
    assert forall i :: p <= i < |s| ==> s[i] == rest[i - p];
  }

  /** The shape of a match: a plain run up to `p`, marks up to `m`, and space up to its end. */
  lemma MatchShape(s: string) returns (p: nat, m: nat)
    requires s != "" && !IsMark(s[0])
    ensures 0 < p <= m <= MatchLength(s) <= |s|
    ensures forall i :: 0 <= i < p ==> !IsMark(s[i])
    ensures forall i :: p <= i < m ==> IsMark(s[i])
    ensures forall i :: m <= i < MatchLength(s) ==> IsSpace(s[i])
    ensures p == m ==> p == MatchLength(s) == |s|
    ensures m < |s| ==> !IsMark(s[m])
    ensures MatchLength(s) < |s| ==> !IsSpace(s[MatchLength(s)])
  {
    p, m := MarksShape(s);
    var rest := s[m..];
    var run := rest[..SpaceRun(rest)];
    RunIsSpace(rest);
    assert forall i :: m <= i < m + |run| ==> s[i] == run[i - m];
    assert SpaceRun(rest) < |rest| ==> s[m + |run|] == rest[|run|];
  }

  lemma {:induction false} NoMatchIff(s: string)
    ensures Matches(s) == [] <==> AllMarks(s)
  {
    if s != "" && IsMark(s[0]) {
      NoMatchIff(s[1..]);
      assert forall i :: 0 < i < |s| ==> s[i] == s[1..][i - 1];
    }
  }

  /** Marks kept apart after the first match are kept apart. */
  lemma ApartInRest(s: string, n: nat, i: int, j: int)
    requires n <= |s| && i >= n
    ensures MarksApart(s, i, j) <==> MarksApart(s[n..], i - n, j - n)
  {
    if n <= i && i + 1 < j < |s| {
      assert s[n..][i - n + 1..j - n] == s[i + 1..j];
    }
  }

  lemma RestSkipsNothing(s: string)
    requires s != "" && NothingSkipped(s)
    ensures NothingSkipped(s[MatchLength(s)..])
  {
    var n := MatchLength(s);
    var rest := s[n..];
    var p, m := MatchShape(s);
    if n < |s| && IsMark(rest[0]) {
      assert MarksApart(s, m - 1, n);
    }
    forall i, j ensures !MarksApart(rest, i, j) {
      if MarksApart(rest, i, j) {
        ApartInRest(s, n, i + n, j + n);
      }
    }
  }

  lemma {:induction false} NothingLost(s: string)
    requires NothingSkipped(s)
    ensures Concat(Matches(s)) == s
    decreases |s|
  {
    if s != "" {
      var n := MatchLength(s);
      RestSkipsNothing(s);
      NothingLost(s[n..]);
      assert s == s[..n] + s[n..];
    }
  }

  /** Marks kept apart by white space in `s` are so in its rest, or the rest starts with a mark. */
  lemma SkippedInRest(s: string, i: int, j: int)
    requires s != "" && !IsMark(s[0]) && MarksApart(s, i, j)
    ensures !NothingSkipped(s[MatchLength(s)..])
  {
    var n := MatchLength(s);
    var p, m := MatchShape(s);
    assert forall k :: i < k < j ==> s[k] == s[i + 1..j][k - i - 1];
    if i >= n {
      ApartInRest(s, n, i, j);
    } else {
      assert !IsMark(s[i + 1]);
      assert i == m - 1;
      assert n == j;
      assert s[n..][0] == s[j];
    }
  }

  lemma SquashMatches(s: string)
    requires s != "" && !IsMark(s[0])
    ensures
      var first, rest := s[..MatchLength(s)], s[MatchLength(s)..];
      && Squash(s) == Squash(first) + Squash(rest)
      && Squash(Concat(Matches(s))) == Squash(first) + Squash(Concat(Matches(rest)))
  {
    hide MatchLength, Squash;
    var first, rest := s[..MatchLength(s)], s[MatchLength(s)..];
    assert s == first + rest;
    SquashAppend(first, rest);
    SquashFirstPart(first, Matches(rest));
  }

  lemma {:induction false} SomethingLost(s: string)
    ensures |Squash(Concat(Matches(s)))| <= |Squash(s)|
    ensures !NothingSkipped(s) ==> |Squash(Concat(Matches(s)))| < |Squash(s)|
    decreases |s|
  {
    if s == "" {
    } else if IsMark(s[0]) {
      SomethingLost(s[1..]);
    } else {
      SomethingLost(s[MatchLength(s)..]);
      SquashMatches(s);
      if !NothingSkipped(s) {
        var i, j :| MarksApart(s, i, j);
        SkippedInRest(s, i, j);
      }
    }
  }

  /** The sentences hold the whole text exactly when it is covered; otherwise characters that are
      no white space are lost. */
  lemma CoveredIff(s: string)
    ensures Covered(s) ==> Concat(Split(s)) == s
    ensures !Covered(s) ==> |Squash(Concat(Split(s)))| < |Squash(s)|
  {
    NoMatchIff(s);
    if AllMarks(s) {
      assert Concat([s]) == s + Concat([]);
    } else {
      SomethingLost(s);
      if NothingSkipped(s) {
        NothingLost(s);
      }
    }
  }

  /** A mark at the start is dropped. */
  lemma DropsLeadingMark()
    ensures Split("!a") == ["a"] && !Covered("!a")
  {
    var s := "!a";
    assert IsMark(s[0]) && !IsMark(s[1]);
    assert s[1..] == "a" && PlainRun("a") == 1 && MatchLength("a") == 1 && "a"[..1] == "a";
    assert Matches("a") == ["a"];
  }
}
