// What trimming and splitting a text are, told by how the text is put together from the results.
module TextShapes {
  import opened Text
  import opened Estimates
  import opened Sentences

  /** The parts with a gap between any two. */
  function Interleave(parts: seq<string>, gaps: seq<string>): string
    requires |parts| == |gaps| + 1
  {
    if gaps == [] then parts[0] else parts[0] + gaps[0] + Interleave(parts[1..], gaps[1..])
  }

  lemma InterleaveFirst(part: string, gap: string, parts: seq<string>, gaps: seq<string>)
    requires |parts| == |gaps| + 1
    ensures Interleave([part] + parts, [gap] + gaps) == part + gap + Interleave(parts, gaps)
  {
    assert ([part] + parts)[1..] == parts && ([gap] + gaps)[1..] == gaps;
  }

  lemma InterleavePrepend(c: char, parts: seq<string>, gaps: seq<string>)
    requires |parts| == |gaps| + 1
    ensures Interleave(Prepend(c, parts), gaps) == [c] + Interleave(parts, gaps)
  {
    assert Prepend(c, parts)[1..] == parts[1..];
    if gaps != [] {
      assert [c] + parts[0] + gaps[0] + Interleave(parts[1..], gaps[1..])
          == [c] + (parts[0] + gaps[0] + Interleave(parts[1..], gaps[1..]));
    }
  }

  // ---------------------------------------------------------------- trimming

  lemma {:induction false} TrimEndIs(s: string)
    ensures TrimEnd(s) <= s && AllSpace(s[|TrimEnd(s)|..])
  {
    if s != "" && IsSpace(s[|s| - 1]) {
      var front := s[..|s| - 1];
      TrimEndIs(front);
      var n := |TrimEnd(s)|;
      assert forall i :: n <= i < |s| - 1 ==> s[i] == front[n..][i - n];
    }
  }

  /** Trimming takes the white space off both ends, and all of it. */
  lemma TrimIs(s: string) returns (before: string, after: string)
    ensures s == before + Trim(s) + after && AllSpace(before) && AllSpace(after)
    ensures Trim(s) != "" ==> !IsSpace(Trim(s)[0]) && !IsSpace(Trim(s)[|Trim(s)| - 1])
  {
    TrimStartIs(s);
    RunIsSpace(s);
    TrimEndIs(TrimStart(s));
    TrimEnds(s);
    before, after := s[..SpaceRun(s)], TrimStart(s)[|Trim(s)|..];
    assert TrimStart(s) == Trim(s) + after;
    assert s == before + TrimStart(s);
  }

  // ---------------------------------------------------------------- words

  predicate NoSpaceIn(s: string) {
    forall i :: 0 <= i < |s| ==> !IsSpace(s[i])
  }

  lemma FirstWord(s: string)
    requires s != "" && !IsSpace(s[0])
    ensures Words(s)[0] != ""
  {
  }

  predicate WordShapes(words: seq<string>) {
    && (forall k :: 0 <= k < |words| ==> NoSpaceIn(words[k]))
    && (forall k :: 0 < k < |words| - 1 ==> words[k] != "")
  }

  predicate GapShapes(gaps: seq<string>) {
    forall k :: 0 <= k < |gaps| ==> gaps[k] != "" && AllSpace(gaps[k])
  }

  lemma WordsPrepend(c: char, words: seq<string>)
    requires words != [] && !IsSpace(c) && WordShapes(words)
    ensures WordShapes(Prepend(c, words))
  {
    var all := Prepend(c, words);
    assert forall k :: 1 <= k < |all| ==> all[k] == words[k];
    assert forall i :: 0 < i < |all[0]| ==> all[0][i] == words[0][i - 1];
  }

  lemma WordsAfterGap(words: seq<string>)
    requires words != [] && WordShapes(words) && (|words| > 1 ==> words[0] != "")
    ensures WordShapes([""] + words)
  {
    var all := [""] + words;
    assert forall k :: 1 <= k < |all| ==> all[k] == words[k - 1];
  }

  lemma AfterRun(s: string)
    requires s != "" && IsSpace(s[0])
    ensures
      var rest := Words(s[SpaceRun(s)..]);
      Words(s) == [""] + rest && (|rest| > 1 ==> rest[0] != "")
  {
    RunIsSpace(s);
    if SpaceRun(s) < |s| {
      FirstWord(s[SpaceRun(s)..]);
    }
  }

  /** The words are what is between the runs of white space; only the first and the last can be empty. */
  lemma {:induction false} WordsAre(s: string) returns (gaps: seq<string>)
    ensures |Words(s)| == |gaps| + 1 && s == Interleave(Words(s), gaps)
    ensures GapShapes(gaps) && WordShapes(Words(s))
    decreases |s|
  {
    hide WordShapes;
    if s == "" {
      gaps := [];
      assert WordShapes([""]) by { NoWordShape(); }
    } else if IsSpace(s[0]) {
      var n := SpaceRun(s);
      RunIsSpace(s);
      AfterRun(s);
      var rest := WordsAre(s[n..]);
      gaps := [s[..n]] + rest;
      InterleaveFirst("", s[..n], Words(s[n..]), rest);
      assert s == "" + s[..n] + s[n..];
      WordsAfterGap(Words(s[n..]));
    } else {
      gaps := WordsAre(s[1..]);
      InterleavePrepend(s[0], Words(s[1..]), gaps);
      assert s == [s[0]] + s[1..];
      WordsPrepend(s[0], Words(s[1..]));
    }
  }

  lemma NoWordShape()
    ensures WordShapes([""])
  {
  }

  // ---------------------------------------------------------------- lines and paragraphs

  predicate Without(s: string, c: char) {
    forall i :: 0 <= i < |s| ==> s[i] != c
  }

  /** Splitting at a character: put back between the parts, of which none has it, it gives the text. */
  lemma {:induction false} SplitOnIs(s: string, c: char)
    ensures Join(SplitOn(s, c), [c]) == s
    ensures forall k :: 0 <= k < |SplitOn(s, c)| ==> Without(SplitOn(s, c)[k], c)
  {
    if s != "" {
      var parts := SplitOn(s[1..], c);
      SplitOnIs(s[1..], c);
      if s[0] == c {
        assert ([""] + parts)[1..] == parts;
        assert s == "" + [c] + s[1..];
      } else {
        JoinPrepend(s[0], parts, [c]);
        assert s == [s[0]] + s[1..];
      }
    }
  }

  lemma JoinPrepend(c: char, parts: seq<string>, sep: string)
    requires parts != []
    ensures Join(Prepend(c, parts), sep) == [c] + Join(parts, sep)
  {
    assert Prepend(c, parts)[1..] == parts[1..];
    if |parts| > 1 {
      assert [c] + parts[0] + sep + Join(parts[1..], sep) == [c] + (parts[0] + sep + Join(parts[1..], sep));
    }
  }

  predicate LineBreaks(s: string) {
    forall i :: 0 <= i < |s| ==> s[i] == '\n'
  }

  /** No empty line in it. */
  predicate OneParagraph(s: string) {
    forall i :: 0 <= i < |s| - 1 ==> !(s[i] == '\n' && s[i + 1] == '\n')
  }

  lemma {:induction false} NewlineRunIs(s: string)
    ensures LineBreaks(s[..NewlineRun(s)])
    ensures NewlineRun(s) < |s| ==> s[NewlineRun(s)] != '\n'
  {
    if s != "" && s[0] == '\n' {
      NewlineRunIs(s[1..]);
      assert s[..NewlineRun(s)] == [s[0]] + s[1..][..NewlineRun(s[1..])];
    }
  }

  /** The first paragraph is what the text starts with; it is empty only if empty lines come first. */
  lemma FirstParagraph(s: string)
    requires s != ""
    ensures NewlineRun(s) >= 2 ==> Paragraphs(s)[0] == ""
    ensures NewlineRun(s) < 2 ==> Paragraphs(s)[0] != "" && Paragraphs(s)[0][0] == s[0]
    ensures NewlineRun(s) == 1 && |s| > 1 ==> s[1] != '\n'
  {
    NewlineRunIs(s);
  }

  lemma NewlinePrepend(s: string)
    requires s != "" && s[0] == '\n' && NewlineRun(s) < 2
    ensures s[1..] != "" ==> Paragraphs(s[1..])[0] != "" && Paragraphs(s[1..])[0][0] != '\n'
  {
    if s[1..] != "" {
      FirstParagraph(s[1..]);
    }
  }

  predicate ParagraphShapes(paragraphs: seq<string>, startsAfterGap: bool) {
    && (forall k :: 0 <= k < |paragraphs| ==> OneParagraph(paragraphs[k]))
    && (forall k :: 0 <= k < |paragraphs| && (k > 0 || startsAfterGap) ==> paragraphs[k] == "" || paragraphs[k][0] != '\n')
    && (forall k :: 0 <= k < |paragraphs| - 1 ==> paragraphs[k] == "" || paragraphs[k][|paragraphs[k]| - 1] != '\n')
  }

  lemma FirstShape(s: string)
    requires s != "" && NewlineRun(s) < 2 && OneParagraph(Paragraphs(s[1..])[0])
    ensures OneParagraph([s[0]] + Paragraphs(s[1..])[0])
    ensures s[0] == '\n' && Paragraphs(s[1..])[0] == "" ==> |Paragraphs(s[1..])| == 1
  {
    var first := Paragraphs(s[1..])[0];
    if s[0] == '\n' {
      NewlinePrepend(s);
    }
    assert forall i :: 0 < i < |first| + 1 ==> ([s[0]] + first)[i] == first[i - 1];
  }

  lemma PrependShapes(c: char, rest: seq<string>)
    requires rest != [] && ParagraphShapes(rest, false) && OneParagraph([c] + rest[0])
    requires c == '\n' && rest[0] == "" ==> |rest| == 1
    ensures ParagraphShapes(Prepend(c, rest), c != '\n')
  {
    hide OneParagraph;
    var all := Prepend(c, rest);
    assert forall k :: 1 <= k < |all| ==> all[k] == rest[k];
    assert all[0] == [c] + rest[0];
    forall k | 0 <= k < |all| - 1 ensures all[k] == "" || all[k][|all[k]| - 1] != '\n' {
      if k == 0 && rest[0] != "" {
        assert all[0][|all[0]| - 1] == rest[0][|rest[0]| - 1];
      }
    }
  }

  lemma ShapesPrepend(s: string)
    requires s != "" && NewlineRun(s) < 2 && ParagraphShapes(Paragraphs(s[1..]), false)
    ensures ParagraphShapes(Paragraphs(s), s[0] != '\n')
  {
    FirstShape(s);
    PrependShapes(s[0], Paragraphs(s[1..]));
  }

  lemma ShapesAfterGap(s: string)
    requires NewlineRun(s) >= 2 && ParagraphShapes(Paragraphs(s[NewlineRun(s)..]), false)
    ensures ParagraphShapes(Paragraphs(s), false)
  {
    var rest := s[NewlineRun(s)..];
    NewlineRunIs(s);
    if rest != "" {
      FirstParagraph(rest);
    }
    assert Paragraphs(s) == [""] + Paragraphs(rest);
  }

  lemma ShapesWeaken(paragraphs: seq<string>, b: bool)
    requires ParagraphShapes(paragraphs, b)
    ensures ParagraphShapes(paragraphs, false)
  {
  }

  /** The paragraphs are what is between runs of two line breaks or more. */
  lemma {:induction false} ParagraphsAre(s: string) returns (gaps: seq<string>)
    ensures |Paragraphs(s)| == |gaps| + 1 && s == Interleave(Paragraphs(s), gaps)
    ensures forall k :: 0 <= k < |gaps| ==> |gaps[k]| >= 2 && LineBreaks(gaps[k])
    ensures ParagraphShapes(Paragraphs(s), false)
    decreases |s|
  {
    hide ParagraphShapes;
    if s == "" {
      gaps := [];
      assert ParagraphShapes([""], false) by { EmptyShape(); }
    } else if NewlineRun(s) >= 2 {
      var n := NewlineRun(s);
      NewlineRunIs(s);
      var rest := ParagraphsAre(s[n..]);
      gaps := [s[..n]] + rest;
      InterleaveFirst("", s[..n], Paragraphs(s[n..]), rest);
      assert s == "" + s[..n] + s[n..];
      ShapesAfterGap(s);
    } else {
      gaps := ParagraphsAre(s[1..]);
      InterleavePrepend(s[0], Paragraphs(s[1..]), gaps);
      assert s == [s[0]] + s[1..];
      ShapesPrepend(s);
      ShapesWeaken(Paragraphs(s), s[0] != '\n');
    }
  }

  lemma EmptyShape()
    ensures ParagraphShapes([""], false)
  {
  }

  // ---------------------------------------------------------------- sentences

  /** A plain run, marks and white space; without marks it is the end of the text. */
  predicate SentenceOf(m: string, plain: string, marks: string, space: string, rest: string) {
    && m == plain + marks + space && plain != ""
    && (forall i :: 0 <= i < |plain| ==> !IsMark(plain[i])) && AllMarks(marks) && AllSpace(space)
    && (marks == "" ==> space == "" && rest == "")
    && (rest != "" ==> !IsSpace(rest[0]) && (space == "" ==> !IsMark(rest[0])))
  }

  ghost predicate IsSentence(m: string, rest: string) {
    exists plain, marks, space :: SentenceOf(m, plain, marks, space, rest)
  }

  /** What the sentences skip are marks: `skips[k]` in front of sentence `k`, the last behind them all. */
  ghost predicate CutAs(s: string, sentences: seq<string>, skips: seq<string>)
    decreases |sentences|
  {
    && |skips| == |sentences| + 1 && AllMarks(skips[0])
    && if sentences == [] then s == skips[0]
       else
         && skips[0] + sentences[0] <= s
         && var rest := s[|skips[0]| + |sentences[0]|..];
            IsSentence(sentences[0], rest) && CutAs(rest, sentences[1..], skips[1..])
  }

  lemma FirstSentence(s: string)
    requires s != "" && !IsMark(s[0])
    ensures IsSentence(s[..MatchLength(s)], s[MatchLength(s)..])
  {
    var p, m := MatchShape(s);
    var n := MatchLength(s);
    assert s[..n] == s[..p] + s[p..m] + s[m..n];
    assert SentenceOf(s[..n], s[..p], s[p..m], s[m..n], s[n..]);
  }

  lemma CutFirst(s: string, n: nat, sentences: seq<string>, skips: seq<string>)
    requires n <= |s| && IsSentence(s[..n], s[n..]) && CutAs(s[n..], sentences, skips)
    ensures CutAs(s, [s[..n]] + sentences, [""] + skips)
  {
    hide IsSentence;
    var all := [s[..n]] + sentences;
    assert ([""] + skips)[1..] == skips && all[1..] == sentences && all[0] == s[..n];
    assert "" + s[..n] == s[..n];
  }

  /** The sentences are cut off the text from left to right, each as long as it can be; what is between
      them are marks. */
  lemma {:induction false} MatchesAre(s: string) returns (skips: seq<string>)
    ensures CutAs(s, Matches(s), skips)
    decreases |s|
  {
    hide IsSentence, MatchLength, CutAs;
    if s == "" {
      skips := [""];
      assert CutAs("", [], [""]) by { NothingCut(); }
    } else if IsMark(s[0]) {
      var rest := MatchesAre(s[1..]);
      assert rest != [] by { HasSkips(s[1..], Matches(s), rest); }
      skips := [[s[0]] + rest[0]] + rest[1..];
      SkipOneMore(s, Matches(s), rest, skips);
    } else {
      var n := MatchLength(s);
      var rest := MatchesAre(s[n..]);
      skips := [""] + rest;
      FirstSentence(s);
      CutFirst(s, n, Matches(s[n..]), rest);
    }
  }

  lemma NothingCut()
    ensures CutAs("", [], [""])
  {
  }

  lemma HasSkips(s: string, sentences: seq<string>, skips: seq<string>)
    requires CutAs(s, sentences, skips)
    ensures skips != []
  {
  }

  lemma SkipOneMore(s: string, sentences: seq<string>, rest: seq<string>, skips: seq<string>)
    requires s != "" && IsMark(s[0]) && CutAs(s[1..], sentences, rest)
    requires skips == [[s[0]] + rest[0]] + rest[1..]
    ensures CutAs(s, sentences, skips)
  {
    hide IsSentence;
    assert skips[1..] == rest[1..];
    if sentences == [] {
      assert s == [s[0]] + s[1..];
    } else {
      var k := |rest[0]| + |sentences[0]|;
      assert s[1..][k..] == s[k + 1..];
      assert s == [s[0]] + s[1..];
      assert skips[0] + sentences[0] == [s[0]] + (rest[0] + sentences[0]);
    }
  }

  // ---------------------------------------------------------------- sizes

  /** The least number of tokens that, at three quarters of a token a word, the words do not exceed. */
  lemma EstimateIs(s: string)
    ensures 3 * Estimate(s) >= 4 * |Words(s)| > 3 * (Estimate(s) - 1)
  {
  }

  /** The last words of the text, one blank between them: as many as three quarters of the tokens,
      rounded up, or all there are. */
  lemma TrailingIs(s: string, tokens: nat) returns (n: nat)
    requires tokens > 0
    ensures n <= |Words(s)| && TrailingText(s, tokens) == Join(Words(s)[|Words(s)| - n..], " ")
    ensures 4 * (n - 1) < 3 * tokens && (n < |Words(s)| ==> 4 * n >= 3 * tokens)
  {
    n := (3 * tokens + 3) / 4;
    if n >= |Words(s)| {
      n := |Words(s)|;
      assert Words(s)[0..] == Words(s);
    }
  }
}
